/** What the content parser guarantees (script.js:40-79), stated against a
    reference that looks at block positions only: how many title blocks precede a
    block, how many verse blocks precede it since the last title block, and what
    that title block says. */
module ParserProperties {
  import opened Document
  import opened Parser

  /** The number of title blocks in `blocks`. */
  function Opened(blocks: seq<Block>): nat
    decreases |blocks|, 1
  {
    if blocks == [] then 0 else OpenedAfter(blocks[..|blocks| - 1], blocks[|blocks| - 1])
  }

  function OpenedAfter(p: seq<Block>, b: Block): nat
    decreases |p| + 1, 0
  {
    Opened(p) + (if OpensPrakaran(b) then 1 else 0)
  }

  /** The number of verse blocks since the last title block, that block included. */
  function VersesSinceTitle(blocks: seq<Block>): nat
    decreases |blocks|, 1
  {
    if blocks == [] then 0 else VersesAfter(blocks[..|blocks| - 1], blocks[|blocks| - 1])
  }

  function VersesAfter(p: seq<Block>, b: Block): nat
    decreases |p| + 1, 0
  {
    (if OpensPrakaran(b) then 0 else VersesSinceTitle(p)) + (if IsVachanText(b.text) then 1 else 0)
  }

  /** The text of the last title block. */
  function LastTitle(blocks: seq<Block>): string
    decreases |blocks|, 1
  {
    if blocks == [] then "" else TitleAfter(blocks[..|blocks| - 1], blocks[|blocks| - 1])
  }

  function TitleAfter(p: seq<Block>, b: Block): string
    decreases |p| + 1, 0
  {
    if OpensPrakaran(b) then b.text else LastTitle(p)
  }

  /** The position of the first title block, or the length if there is none. */
  function FirstTitle(blocks: seq<Block>): (f: nat)
    ensures f <= |blocks|
    ensures forall i :: 0 <= i < f ==> !OpensPrakaran(blocks[i])
    ensures f < |blocks| ==> OpensPrakaran(blocks[f])
  {
    if blocks == [] then 0
    else
      var p := blocks[..|blocks| - 1];
      var fp := FirstTitle(p);
      if fp < |p| then fp
      else if OpensPrakaran(blocks[|blocks| - 1]) then |p|
      else |blocks|
  }

  /** The content item the block `b` must become when it follows the blocks `p`:
      a verse block is anchored by chapter number and verse number, any other
      block by its position among all blocks. */
  function ItemFor(p: seq<Block>, b: Block): ContentItem
    requires OpenedAfter(p, b) > 0
  {
    if IsVachanText(b.text) then
      ContentItem(b.classes, b.text, VachanItem, VachanId(PrakaranId(OpenedAfter(p, b) - 1), VersesAfter(p, b) - 1))
    else
      ContentItem(b.classes, b.text, Default, ContentId(|p|))
  }

  /** The verse the block `b` must become when it follows `p`, if it is one. */
  function VachanFor(p: seq<Block>, b: Block): seq<Vachan>
    requires OpenedAfter(p, b) > 0
  {
    if IsVachanText(b.text) then
      [Vachan(VachanId(PrakaranId(OpenedAfter(p, b) - 1), VersesAfter(p, b) - 1), DisplayText(b.text),
              OpenedAfter(p, b) - 1, TitleAfter(p, b), VersesAfter(p, b))]
    else []
  }

  /** The index entry the block `b` must get when it follows `p`. */
  function EntryFor(p: seq<Block>, b: Block): IndexEntry
    requires OpenedAfter(p, b) > 0
  {
    var isVachan := IsVachanText(b.text);
    IndexEntry(b.text, OpenedAfter(p, b) - 1, ContentId(|p|), TitleAfter(p, b), isVachan,
               if isVachan then Some(VersesAfter(p, b)) else None)
  }

  /** One content item per block from the first title block on. */
  function ExpectedItems(blocks: seq<Block>): seq<ContentItem> {
    if blocks == [] then []
    else
      var p, b := blocks[..|blocks| - 1], blocks[|blocks| - 1];
      ExpectedItems(p) + (if OpenedAfter(p, b) > 0 then [ItemFor(p, b)] else [])
  }

  /** One index entry per block with text, from the first title block on. */
  function ExpectedIndex(blocks: seq<Block>): seq<IndexEntry> {
    if blocks == [] then []
    else
      var p, b := blocks[..|blocks| - 1], blocks[|blocks| - 1];
      ExpectedIndex(p) + (if OpenedAfter(p, b) > 0 && b.text != "" then [EntryFor(p, b)] else [])
  }

  /** The content items of all chapters, in order. */
  function AllContent(ps: seq<Prakaran>): seq<ContentItem> {
    if ps == [] then [] else AllContent(ps[..|ps| - 1]) + ps[|ps| - 1].content
  }

  /** The verses of all chapters, in order. */
  function AllVachansOf(ps: seq<Prakaran>): seq<Vachan> {
    if ps == [] then [] else AllVachansOf(ps[..|ps| - 1]) + ps[|ps| - 1].vachans
  }

  /** The verse items among `items`, in order. */
  function VachanItems(items: seq<ContentItem>): seq<ContentItem> {
    if items == [] then []
    else VachanItems(items[..|items| - 1]) + (if items[|items| - 1].kind == VachanItem then [items[|items| - 1]] else [])
  }

  lemma Unfold(p: seq<Block>, b: Block)
    ensures (p + [b])[..|p|] == p && (p + [b])[|p|] == b
    ensures Opened(p + [b]) == OpenedAfter(p, b)
    ensures VersesSinceTitle(p + [b]) == VersesAfter(p, b)
    ensures LastTitle(p + [b]) == TitleAfter(p, b)
    ensures Run(p + [b]) == Step(Run(p), b)
    ensures ExpectedItems(p + [b]) == ExpectedItems(p) + (if OpenedAfter(p, b) > 0 then [ItemFor(p, b)] else [])
    ensures ExpectedIndex(p + [b]) == ExpectedIndex(p) + (if OpenedAfter(p, b) > 0 && b.text != "" then [EntryFor(p, b)] else [])
  {
    assert (p + [b])[..|p|] == p;
  }

  lemma SplitLast<T>(s: seq<T>)
    requires s != []
    ensures s == s[..|s| - 1] + [s[|s| - 1]]
  {
  }

  /** The scratch state of the pass: the counter has seen every block, a chapter is
      open once a title block was seen, and the open chapter carries the id, title
      and verse count the positions give. */
  lemma {:induction false} RunShape(blocks: seq<Block>)
    ensures Run(blocks).counter == |blocks|
    ensures Run(blocks).current.Some? <==> Opened(blocks) > 0
    ensures |Chapters(Run(blocks))| == Opened(blocks)
    ensures Run(blocks).current.Some? ==>
      var c := Run(blocks).current.value;
      c.id == PrakaranId(|Run(blocks).prakaranData|) && c.title == LastTitle(blocks) &&
      |c.vachans| == VersesSinceTitle(blocks)
  {
    if blocks != [] {
      var p, b := blocks[..|blocks| - 1], blocks[|blocks| - 1];
      SplitLast(blocks);
      Unfold(p, b);
      RunShape(p);
    }
  }

  /** After a title block, or inside a chapter, the open chapter is the one the
      positions name. */
  lemma OpenedChapter(p: seq<Block>, b: Block)
    requires OpenedAfter(p, b) > 0
    ensures var st := OpenAt(Run(p), b);
      st.current.Some? && |st.prakaranData| == OpenedAfter(p, b) - 1 &&
      var c := st.current.value;
      c.id == PrakaranId(|st.prakaranData|) && c.title == TitleAfter(p, b) &&
      |c.vachans| + (if IsVachanText(b.text) then 1 else 0) == VersesAfter(p, b)
  {
    RunShape(p);
  }

  /** What the parser stores for a block once a chapter is open is what the
      positions prescribe. */
  lemma StoredAsPrescribed(p: seq<Block>, b: Block)
    requires OpenedAfter(p, b) > 0
    ensures var st := OpenAt(Run(p), b);
      st.current.Some? &&
      var c, k := st.current.value, |st.prakaranData|;
      NewItem(c, b, ContentId(|p|)) == ItemFor(p, b) &&
      NewVachans(c, b, k) == VachanFor(p, b) &&
      NewEntries(c, b, ContentId(|p|), k) == (if b.text != "" then [EntryFor(p, b)] else [])
  {
    OpenedChapter(p, b);
  }

  /** One step of the pass, seen on the finished result. */
  lemma StepParse(p: seq<Block>, b: Block)
    ensures OpensPrakaran(b) ==>
      Parse(p + [b]).prakaranData ==
        Parse(p).prakaranData + [Prakaran(b.text, PrakaranId(|Parse(p).prakaranData|), [ItemFor(p, b)], VachanFor(p, b))]
    ensures !OpensPrakaran(b) && Opened(p) == 0 ==> Parse(p + [b]) == Parse(p)
    ensures !OpensPrakaran(b) && Opened(p) > 0 ==>
      var P := Parse(p).prakaranData;
      |P| > 0 &&
      Parse(p + [b]).prakaranData == P[..|P| - 1] +
        [P[|P| - 1].(content := P[|P| - 1].content + [ItemFor(p, b)], vachans := P[|P| - 1].vachans + VachanFor(p, b))]
    ensures OpenedAfter(p, b) > 0 ==>
      Parse(p + [b]).allVachans == Parse(p).allVachans + VachanFor(p, b) &&
      Parse(p + [b]).searchIndex == Parse(p).searchIndex + (if b.text != "" then [EntryFor(p, b)] else [])
  {
    Unfold(p, b);
    RunShape(p);
    if OpenedAfter(p, b) > 0 {
      StoredAsPrescribed(p, b);
    }
    if OpensPrakaran(b) {
      var st' := OpenAt(Run(p), b);
      assert st'.prakaranData == Parse(p).prakaranData;
      var c := st'.current.value;
      assert c.content == [] && c.vachans == [];
      assert Run(p + [b]) == Store(st', b, ContentId(|p|));
      assert Run(p + [b]).current == Some(c.(content := c.content + [NewItem(c, b, ContentId(|p|))],
                                            vachans := c.vachans + NewVachans(c, b, |st'.prakaranData|)));
      assert c.content + [ItemFor(p, b)] == [ItemFor(p, b)];
      assert c.vachans + VachanFor(p, b) == VachanFor(p, b);
      assert Run(p + [b]).current == Some(c.(content := [ItemFor(p, b)], vachans := VachanFor(p, b)));
    }
    if !OpensPrakaran(b) && Opened(p) > 0 {
      var st := Run(p);
      var c := st.current.value;
      var P := Parse(p);
      assert P.prakaranData == st.prakaranData + [c];
      assert P.prakaranData[..|P.prakaranData| - 1] == st.prakaranData;
      assert P.prakaranData[|P.prakaranData| - 1] == c;
      var st' := OpenAt(st, b);
      assert st' == st.(counter := st.counter + 1);
      var c' := c.(content := c.content + [ItemFor(p, b)], vachans := c.vachans + VachanFor(p, b));
      assert Run(p + [b]).current == Some(c');
      assert Run(p + [b]).prakaranData == st.prakaranData;
    }
  }

  /** The finished chapter list as the positions describe it: one chapter per title
      block, and the last one carries the last title and the verses since it. */
  lemma LastChapter(p: seq<Block>)
    ensures |Parse(p).prakaranData| == Opened(p)
    ensures Opened(p) > 0 ==>
      var P := Parse(p).prakaranData;
      P[|P| - 1].title == LastTitle(p) && |P[|P| - 1].vachans| == VersesSinceTitle(p)
  {
    RunShape(p);
  }

  /** What holds of the k-th chapter of a finished parse. */
  predicate ChapterWellFormed(c: Prakaran, k: nat) {
    ChapterOpens(c, k) && KindsMatch(c.content) && VersesNumbered(c, k)
  }

  /** The chapter is `prakaran-k`, its first item is its title block and no other
      item is a title block. */
  predicate ChapterOpens(c: Prakaran, k: nat) {
    c.id == PrakaranId(k) &&
    |c.content| > 0 && IsOpenerItem(c.content[0]) && c.content[0].text == c.title &&
    forall i :: 1 <= i < |c.content| ==> !IsOpenerItem(c.content[i])
  }

  /** An item is a verse item exactly when its text starts with the verse marker. */
  predicate KindsMatch(items: seq<ContentItem>) {
    forall i :: 0 <= i < |items| ==> (items[i].kind == VachanItem <==> IsVachanText(items[i].text))
  }

  /** The j-th verse item of the chapter is its verse number j + 1, with id
      `prakaran-k-vachan-j`, the marker stripped from its text, and the chapter's
      position and title. */
  predicate VersesNumbered(c: Prakaran, k: nat) {
    var items := VachanItems(c.content);
    |items| == |c.vachans| &&
    forall j :: 0 <= j < |c.vachans| ==> VerseNumbered(c.vachans[j], items[j], c.title, k, j)
  }

  predicate VerseNumbered(v: Vachan, item: ContentItem, title: string, k: nat, j: nat) {
    v == Vachan(VachanId(PrakaranId(k), j), DisplayText(item.text), k, title, j + 1) && item.id == v.id
  }

  lemma VachanItemsSnoc(items: seq<ContentItem>, item: ContentItem)
    ensures VachanItems(items + [item]) == VachanItems(items) + (if item.kind == VachanItem then [item] else [])
  {
    assert (items + [item])[..|items|] == items;
  }

  /** The blocks `item` stands for, when it opens chapter k. */
  predicate OpensAs(item: ContentItem, k: nat, vs: seq<Vachan>) {
    IsOpenerItem(item) && (item.kind == VachanItem <==> IsVachanText(item.text)) &&
    (if IsVachanText(item.text) then
       item.id == VachanId(PrakaranId(k), 0) && vs == [Vachan(item.id, DisplayText(item.text), k, item.text, 1)]
     else vs == [])
  }

  /** The blocks `item` stands for, when it joins chapter `c`, the k-th. */
  predicate JoinsAs(c: Prakaran, k: nat, item: ContentItem, vs: seq<Vachan>) {
    !IsOpenerItem(item) && (item.kind == VachanItem <==> IsVachanText(item.text)) &&
    (if IsVachanText(item.text) then
       item.id == VachanId(PrakaranId(k), |c.vachans|) &&
       vs == [Vachan(item.id, DisplayText(item.text), k, c.title, |c.vachans| + 1)]
     else vs == [])
  }

  /** A chapter opened by the block that becomes `item`. */
  lemma NewChapter(item: ContentItem, k: nat, vs: seq<Vachan>)
    requires OpensAs(item, k, vs)
    ensures ChapterWellFormed(Prakaran(item.text, PrakaranId(k), [item], vs), k)
  {
    var c := Prakaran(item.text, PrakaranId(k), [item], vs);
    assert ChapterOpens(c, k);
    assert KindsMatch(c.content);
    NewChapterVerses(item, k, vs);
  }

  lemma NewChapterVerses(item: ContentItem, k: nat, vs: seq<Vachan>)
    requires OpensAs(item, k, vs)
    ensures VersesNumbered(Prakaran(item.text, PrakaranId(k), [item], vs), k)
  {
    VachanItemsSnoc([], item);
    assert [] + [item] == [item];
    if IsVachanText(item.text) {
      assert VachanItems([item]) == [item];
      assert VerseNumbered(vs[0], item, item.text, k, 0);
    } else {
      assert VachanItems([item]) == [];
    }
  }

  /** A chapter that takes one more block, which is not a title block. */
  lemma ExtendChapter(c: Prakaran, k: nat, item: ContentItem, vs: seq<Vachan>)
    requires ChapterWellFormed(c, k) && JoinsAs(c, k, item, vs)
    ensures ChapterWellFormed(c.(content := c.content + [item], vachans := c.vachans + vs), k)
  {
    var c' := c.(content := c.content + [item], vachans := c.vachans + vs);
    assert ChapterOpens(c', k) by {
      assert forall i :: 0 <= i < |c.content| ==> c'.content[i] == c.content[i];
    }
    assert KindsMatch(c'.content) by {
      assert forall i :: 0 <= i < |c.content| ==> c'.content[i] == c.content[i];
    }
    assert VersesNumbered(c', k) by {
      ExtendVerses(c, k, item, vs);
    }
  }

  lemma ExtendVerses(c: Prakaran, k: nat, item: ContentItem, vs: seq<Vachan>)
    requires VersesNumbered(c, k) && JoinsAs(c, k, item, vs)
    ensures VersesNumbered(c.(content := c.content + [item], vachans := c.vachans + vs), k)
  {
    VachanItemsSnoc(c.content, item);
    var items, items' := VachanItems(c.content), VachanItems(c.content + [item]);
    var vachans' := c.vachans + vs;
    forall j | 0 <= j < |vachans'|
      ensures VerseNumbered(vachans'[j], items'[j], c.title, k, j)
    {
      if j < |c.vachans| {
        assert vachans'[j] == c.vachans[j] && items'[j] == items[j];
      } else {
        assert IsVachanText(item.text) && |vs| == 1 && j == |c.vachans|;
        assert items' == items + [item];
        assert vachans'[j] == vs[0];
        assert items'[j] == item;
        JoinedVerse(c, k, item, vs);
      }
    }
  }

  lemma JoinedVerse(c: Prakaran, k: nat, item: ContentItem, vs: seq<Vachan>)
    requires JoinsAs(c, k, item, vs) && vs != []
    ensures VerseNumbered(vs[0], item, c.title, k, |c.vachans|)
  {
  }

  predicate AllWellFormed(ps: seq<Prakaran>) {
    forall k :: 0 <= k < |ps| ==> ChapterWellFormed(ps[k], k)
  }

  /** Every chapter of a parse is well formed: it starts with its title block,
      holds no other title block, and numbers its verses 1, 2, ... with the ids
      `prakaran-k-vachan-0`, `prakaran-k-vachan-1`, ... (script.js:48-53, 67-73). */
  lemma {:induction false} ChaptersWellFormed(blocks: seq<Block>)
    ensures |Parse(blocks).prakaranData| == Opened(blocks)
    ensures AllWellFormed(Parse(blocks).prakaranData)
  {
    LastChapter(blocks);
    if blocks != [] {
      var p, b := blocks[..|blocks| - 1], blocks[|blocks| - 1];
      SplitLast(blocks);
      ChaptersWellFormed(p);
      if OpensPrakaran(b) {
        OpenStep(p, b);
      } else if Opened(p) > 0 {
        JoinStep(p, b);
      } else {
        StepParse(p, b);
      }
    }
  }

  lemma OpenStep(p: seq<Block>, b: Block)
    requires AllWellFormed(Parse(p).prakaranData) && OpensPrakaran(b)
    ensures AllWellFormed(Parse(p + [b]).prakaranData)
  {
    StepParse(p, b);
    LastChapter(p);
    var P, Q := Parse(p).prakaranData, Parse(p + [b]).prakaranData;
    ItemOpens(p, b);
    var c := Prakaran(b.text, PrakaranId(|P|), [ItemFor(p, b)], VachanFor(p, b));
    NewChapter(ItemFor(p, b), |P|, VachanFor(p, b));
    assert Q == P + [c];
    AppendWellFormed(P, c);
  }

  lemma JoinStep(p: seq<Block>, b: Block)
    requires AllWellFormed(Parse(p).prakaranData) && !OpensPrakaran(b) && Opened(p) > 0
    ensures AllWellFormed(Parse(p + [b]).prakaranData)
  {
    StepParse(p, b);
    LastChapter(p);
    var P, Q := Parse(p).prakaranData, Parse(p + [b]).prakaranData;
    var n := |P|;
    assert JoinsAs(P[n - 1], n - 1, ItemFor(p, b), VachanFor(p, b));
    var c := P[n - 1].(content := P[n - 1].content + [ItemFor(p, b)], vachans := P[n - 1].vachans + VachanFor(p, b));
    ExtendChapter(P[n - 1], n - 1, ItemFor(p, b), VachanFor(p, b));
    assert Q == P[..n - 1] + [c];
    ReplaceLastWellFormed(P, c);
  }

  /** A title block opens chapter `Opened(p)` as its first item. */
  lemma ItemOpens(p: seq<Block>, b: Block)
    requires OpensPrakaran(b)
    ensures OpensAs(ItemFor(p, b), Opened(p), VachanFor(p, b))
  {
    var item := ItemFor(p, b);
    assert OpenedAfter(p, b) - 1 == Opened(p);
    assert TitleAfter(p, b) == b.text;
    if IsVachanText(b.text) {
      assert VersesAfter(p, b) == 1;
      assert item.id == VachanId(PrakaranId(Opened(p)), 0);
      assert VachanFor(p, b) == [Vachan(item.id, DisplayText(item.text), Opened(p), item.text, 1)];
    } else {
      assert VachanFor(p, b) == [];
    }
  }

  lemma AppendWellFormed(ps: seq<Prakaran>, c: Prakaran)
    requires AllWellFormed(ps) && ChapterWellFormed(c, |ps|)
    ensures AllWellFormed(ps + [c])
  {
    assert forall k :: 0 <= k < |ps| ==> (ps + [c])[k] == ps[k];
  }

  lemma ReplaceLastWellFormed(ps: seq<Prakaran>, c: Prakaran)
    requires ps != [] && AllWellFormed(ps) && ChapterWellFormed(c, |ps| - 1)
    ensures AllWellFormed(ps[..|ps| - 1] + [c])
  {
    assert forall k :: 0 <= k < |ps| - 1 ==> (ps[..|ps| - 1] + [c])[k] == ps[k];
  }

  lemma ConcatAppend(ps: seq<Prakaran>, c: Prakaran)
    ensures AllContent(ps + [c]) == AllContent(ps) + c.content
    ensures AllVachansOf(ps + [c]) == AllVachansOf(ps) + c.vachans
  {
    assert (ps + [c])[..|ps|] == ps;
  }

  /** The last chapter grows by the items `items` and the verses `vs`. */
  lemma ConcatGrowLast(init: seq<Prakaran>, last: Prakaran, items: seq<ContentItem>, vs: seq<Vachan>)
    ensures var c := last.(content := last.content + items, vachans := last.vachans + vs);
      AllContent(init + [c]) == AllContent(init + [last]) + items &&
      AllVachansOf(init + [c]) == AllVachansOf(init + [last]) + vs
  {
    ConcatAppend(init, last.(content := last.content + items, vachans := last.vachans + vs));
    ConcatAppend(init, last);
  }

  /** The chapters hold one content item per block from the first title block
      on, in block order, and the flat verse list is the chapters' verse lists
      one after the other (script.js:71-75). */
  lemma {:induction false} FlatListsInOrder(blocks: seq<Block>)
    ensures AllContent(Parse(blocks).prakaranData) == ExpectedItems(blocks)
    ensures Parse(blocks).allVachans == AllVachansOf(Parse(blocks).prakaranData)
  {
    if blocks != [] {
      var p, b := blocks[..|blocks| - 1], blocks[|blocks| - 1];
      SplitLast(blocks);
      Unfold(p, b);
      FlatListsInOrder(p);
      StepParse(p, b);
      var P := Parse(p).prakaranData;
      if OpensPrakaran(b) {
        ConcatAppend(P, Prakaran(b.text, PrakaranId(|P|), [ItemFor(p, b)], VachanFor(p, b)));
      } else if Opened(p) > 0 {
        SplitLast(P);
        ConcatGrowLast(P[..|P| - 1], P[|P| - 1], [ItemFor(p, b)], VachanFor(p, b));
      }
    }
  }

  /** The search index is the reference list of entries (script.js:56-65). */
  lemma {:induction false} IndexInOrder(blocks: seq<Block>)
    ensures Parse(blocks).searchIndex == ExpectedIndex(blocks)
  {
    if blocks != [] {
      var p, b := blocks[..|blocks| - 1], blocks[|blocks| - 1];
      SplitLast(blocks);
      Unfold(p, b);
      IndexInOrder(p);
      StepParse(p, b);
    }
  }

  lemma {:induction false} FirstTitleOpened(blocks: seq<Block>)
    ensures Opened(blocks) == 0 <==> FirstTitle(blocks) == |blocks|
  {
    if blocks != [] {
      var p, b := blocks[..|blocks| - 1], blocks[|blocks| - 1];
      FirstTitleOpened(p);
    }
  }

  /** One content item per block from the first title block on: the j-th item
      is the block at position `FirstTitle + j` as `ItemFor` prescribes, with the
      block's classes and text, and, unless it is a verse, the id `content-i` of
      its position i among all blocks. Blocks before the first title block give
      no item, yet they use up the numbers `content-0` ... (script.js:45, 52-54, 75). */
  lemma {:induction false} ItemsFromFirstTitle(blocks: seq<Block>)
    ensures |ExpectedItems(blocks)| == |blocks| - FirstTitle(blocks)
    ensures forall j :: 0 <= j < |ExpectedItems(blocks)| ==> ItemFromBlock(blocks, ExpectedItems(blocks), FirstTitle(blocks), j)
  {
    if blocks != [] {
      var p, b := blocks[..|blocks| - 1], blocks[|blocks| - 1];
      ItemsFromFirstTitle(p);
      FirstTitleOpened(p);
      var E, E' := ExpectedItems(p), ExpectedItems(blocks);
      var f, fp := FirstTitle(blocks), FirstTitle(p);
      assert E' == E + (if OpenedAfter(p, b) > 0 then [ItemFor(p, b)] else []);
      assert |E| > 0 ==> f == fp;
      assert OpenedAfter(p, b) > 0 ==> f + |E| == |p|;
      forall j | 0 <= j < |E'|
        ensures ItemFromBlock(blocks, E', f, j)
      {
        if j < |E| {
          assert ItemFromBlock(p, E, fp, j);
          assert blocks[..f + j] == p[..f + j] && blocks[f + j] == p[f + j];
          assert E'[j] == E[j];
        } else {
          assert blocks[..f + j] == p && blocks[f + j] == b;
        }
      }
    }
  }

  /** The j-th item is what `ItemFor` prescribes for the block at position `f + j`. */
  predicate ItemFromBlock(blocks: seq<Block>, items: seq<ContentItem>, f: nat, j: nat) {
    f + j < |blocks| && j < |items| &&
    OpenedAfter(blocks[..f + j], blocks[f + j]) > 0 && items[j] == ItemFor(blocks[..f + j], blocks[f + j])
  }

  /** Chapters only grow: none disappears, titles stay, verse lists only get
      longer at the end. */
  predicate Grows(ps: seq<Prakaran>, qs: seq<Prakaran>) {
    |ps| <= |qs| &&
    forall k :: 0 <= k < |ps| ==> qs[k].title == ps[k].title && ps[k].vachans <= qs[k].vachans
  }

  lemma StepGrows(p: seq<Block>, b: Block)
    ensures Grows(Parse(p).prakaranData, Parse(p + [b]).prakaranData)
  {
    StepParse(p, b);
    LastChapter(p);
    var P, Q := Parse(p).prakaranData, Parse(p + [b]).prakaranData;
    if !OpensPrakaran(b) && Opened(p) > 0 {
      var n := |P|;
      assert forall k :: 0 <= k < n - 1 ==> Q[k] == P[k];
      assert P[n - 1].vachans <= Q[n - 1].vachans;
    } else if OpensPrakaran(b) {
      assert forall k :: 0 <= k < |P| ==> Q[k] == P[k];
    }
  }

  /** A search entry that leads somewhere: it has text, it is a verse entry
      exactly when its text starts with the verse marker and then carries a verse
      number, its chapter exists under the title it records, and its verse number
      names the verse listed under the text the entry shows. */
  predicate EntryLinked(e: IndexEntry, ps: seq<Prakaran>) {
    EntryShape(e) && ChapterOf(e, ps) && VerseOf(e, ps)
  }

  predicate EntryShape(e: IndexEntry) {
    e.text != "" && e.isVachan == IsVachanText(e.text) && (e.vachanNumber.Some? <==> e.isVachan)
  }

  predicate ChapterOf(e: IndexEntry, ps: seq<Prakaran>) {
    e.prakaranIndex < |ps| && ps[e.prakaranIndex].title == e.prakaranTitle
  }

  predicate VerseOf(e: IndexEntry, ps: seq<Prakaran>) {
    match e.vachanNumber
    case None => true
    case Some(n) =>
      e.prakaranIndex < |ps| && 1 <= n <= |ps[e.prakaranIndex].vachans| &&
      ps[e.prakaranIndex].vachans[n - 1].text == DisplayText(e.text)
  }

  lemma LinkedGrows(e: IndexEntry, ps: seq<Prakaran>, qs: seq<Prakaran>)
    requires EntryLinked(e, ps) && Grows(ps, qs)
    ensures EntryLinked(e, qs)
  {
    var k := e.prakaranIndex;
    assert ps[k].vachans <= qs[k].vachans;
  }

  lemma NewEntryLinked(p: seq<Block>, b: Block)
    requires OpenedAfter(p, b) > 0 && b.text != ""
    ensures EntryLinked(EntryFor(p, b), Parse(p + [b]).prakaranData)
  {
    NewEntryChapter(p, b);
    NewEntryVerse(p, b);
  }

  lemma NewEntryChapter(p: seq<Block>, b: Block)
    requires OpenedAfter(p, b) > 0
    ensures ChapterOf(EntryFor(p, b), Parse(p + [b]).prakaranData)
  {
    Unfold(p, b);
    LastChapter(p + [b]);
  }

  lemma NewEntryVerse(p: seq<Block>, b: Block)
    requires OpenedAfter(p, b) > 0
    ensures VerseOf(EntryFor(p, b), Parse(p + [b]).prakaranData)
  {
    if IsVachanText(b.text) {
      var Q := Parse(p + [b]).prakaranData;
      UnfoldCounts(p, b);
      LastChapter(p + [b]);
      LastVerseText(p, b);
      var n := |Q[|Q| - 1].vachans|;
      assert EntryFor(p, b).prakaranIndex == |Q| - 1;
      assert EntryFor(p, b).vachanNumber == Some(n);
      assert Q[|Q| - 1].vachans[n - 1].text == DisplayText(b.text);
    }
  }

  lemma UnfoldCounts(p: seq<Block>, b: Block)
    ensures Opened(p + [b]) == OpenedAfter(p, b)
    ensures VersesSinceTitle(p + [b]) == VersesAfter(p, b)
    ensures LastTitle(p + [b]) == TitleAfter(p, b)
  {
    assert (p + [b])[..|p|] == p;
  }

  /** The last verse of the last chapter is listed under `t`. */
  predicate LastVerseIs(ps: seq<Prakaran>, t: string) {
    ps != [] && ps[|ps| - 1].vachans != [] && ps[|ps| - 1].vachans[|ps[|ps| - 1].vachans| - 1].text == t
  }

  /** A verse block becomes the last verse of the last chapter. */
  lemma LastVerseText(p: seq<Block>, b: Block)
    requires OpenedAfter(p, b) > 0 && IsVachanText(b.text)
    ensures LastVerseIs(Parse(p + [b]).prakaranData, DisplayText(b.text))
  {
    Unfold(p, b);
    RunShape(p);
    StepVerse(Run(p), b);
    CurrentIsLast(Run(p + [b]), DisplayText(b.text));
  }

  /** The last verse of the open chapter is listed under `t`. */
  predicate CurrentVerseIs(st: ParseState, t: string) {
    st.current.Some? && st.current.value.vachans != [] &&
    st.current.value.vachans[|st.current.value.vachans| - 1].text == t
  }

  lemma StepVerse(st: ParseState, b: Block)
    requires OpenAt(st, b).current.Some? && IsVachanText(b.text)
    ensures CurrentVerseIs(Store(OpenAt(st, b), b, ContentId(st.counter)), DisplayText(b.text))
  {
  }

  lemma CurrentIsLast(st: ParseState, t: string)
    requires CurrentVerseIs(st, t)
    ensures LastVerseIs(Chapters(st), t)
  {
  }

  /** Every entry of the search index leads to its chapter and, for a verse,
      to its verse (script.js:56-65, 71). */
  lemma {:induction false} IndexLinked(blocks: seq<Block>)
    ensures forall i :: 0 <= i < |Parse(blocks).searchIndex| ==>
      EntryLinked(Parse(blocks).searchIndex[i], Parse(blocks).prakaranData)
  {
    if blocks != [] {
      var p, b := blocks[..|blocks| - 1], blocks[|blocks| - 1];
      SplitLast(blocks);
      IndexLinked(p);
      StepParse(p, b);
      StepGrows(p, b);
      var P, Q := Parse(p).prakaranData, Parse(blocks).prakaranData;
      var I, J := Parse(p).searchIndex, Parse(blocks).searchIndex;
      forall i | 0 <= i < |J|
        ensures EntryLinked(J[i], Q)
      {
        if i < |I| {
          assert J[i] == I[i];
          LinkedGrows(I[i], P, Q);
        } else {
          NewEntryLinked(p, b);
        }
      }
    }
  }

  /** A verse's id is made of its chapter number and its verse number less one. */
  predicate Anchored(v: Vachan) {
    v.number >= 1 && v.id == VachanId(PrakaranId(v.prakaranIndex), v.number - 1)
  }

  /** Verses listed by chapter, and by verse number within a chapter. */
  predicate InAnchorOrder(vs: seq<Vachan>) {
    forall a, b :: 0 <= a < b < |vs| ==>
      vs[a].prakaranIndex < vs[b].prakaranIndex ||
      (vs[a].prakaranIndex == vs[b].prakaranIndex && vs[a].number < vs[b].number)
  }

  /** The verses of well-formed chapters come chapter by chapter and number by
      number, each anchored by its own chapter and number. */
  lemma {:induction false} VersesInOrder(ps: seq<Prakaran>)
    requires AllWellFormed(ps)
    ensures InAnchorOrder(AllVachansOf(ps))
    ensures forall i :: 0 <= i < |AllVachansOf(ps)| ==>
      Anchored(AllVachansOf(ps)[i]) && AllVachansOf(ps)[i].prakaranIndex < |ps|
  {
    if ps != [] {
      var init, c, k := ps[..|ps| - 1], ps[|ps| - 1], |ps| - 1;
      assert AllWellFormed(init) by {
        forall i | 0 <= i < |init| ensures ChapterWellFormed(init[i], i) {
          assert init[i] == ps[i];
        }
      }
      VersesInOrder(init);
      var V, W := AllVachansOf(init), AllVachansOf(ps);
      assert W == V + c.vachans;
      assert ChapterWellFormed(c, k);
      assert forall j :: 0 <= j < |c.vachans| ==>
        c.vachans[j].prakaranIndex == k && c.vachans[j].number == j + 1 && Anchored(c.vachans[j]);
    }
  }

  /** No two verses of a parse share an id (script.js:70-71): the ids
      `prakaran-k-vachan-j` are told apart by k and j. */
  lemma VerseIdsDistinct(blocks: seq<Block>)
    ensures forall a, b :: 0 <= a < b < |Parse(blocks).allVachans| ==>
      Parse(blocks).allVachans[a].id != Parse(blocks).allVachans[b].id
  {
    var V := Parse(blocks).allVachans;
    ChaptersWellFormed(blocks);
    FlatListsInOrder(blocks);
    VersesInOrder(Parse(blocks).prakaranData);
    forall a, b | 0 <= a < b < |V|
      ensures V[a].id != V[b].id
    {
      if V[a].id == V[b].id {
        VachanIdInjective(V[a].prakaranIndex, V[a].number - 1, V[b].prakaranIndex, V[b].number - 1);
      }
    }
  }

  /** Every verse of a parse belongs to a chapter that exists, and its id is
      the anchor of its chapter and number: a verse link opens that chapter
      (script.js:177, 189). */
  lemma VersesAnchored(blocks: seq<Block>)
    ensures forall i :: 0 <= i < |Parse(blocks).allVachans| ==>
      Anchored(Parse(blocks).allVachans[i]) &&
      Parse(blocks).allVachans[i].prakaranIndex < |Parse(blocks).prakaranData|
  {
    ChaptersWellFormed(blocks);
    FlatListsInOrder(blocks);
    VersesInOrder(Parse(blocks).prakaranData);
  }
  /** An id handed out before the block at position `n`, whose chapter is `k`
      with `v` verses so far: a `content-c` with c < n, or the id of a verse
      that comes before verse `v` of chapter `k`. */
  ghost predicate IdBefore(id: string, n: nat, k: int, v: nat) {
    (exists c: nat :: c < n && id == ContentId(c)) ||
    (exists kk: nat, j: nat :: (kk < k || (kk == k && j < v)) && id == VachanId(PrakaranId(kk), j))
  }

  /** The `content-n` id of block n was not handed out before it. */
  lemma ContentIdFresh(n: nat, k: int, v: nat)
    ensures !IdBefore(ContentId(n), n, k, v)
  {
    if IdBefore(ContentId(n), n, k, v) {
      if c: nat :| c < n && ContentId(n) == ContentId(c) {
        ContentIdInjective(n, c);
      } else {
        var kk: nat, j: nat :| ContentId(n) == VachanId(PrakaranId(kk), j);
        ContentIdIsNotVachanId(n, kk, j);
      }
    }
  }

  /** Verse `j` of chapter `k` was not handed out before any place not later
      than it. */
  lemma VachanIdFresh(k: nat, j: nat, n: nat, k': int, v': nat)
    requires k' < k || (k' == k && v' <= j)
    ensures !IdBefore(VachanId(PrakaranId(k), j), n, k', v')
  {
    var id := VachanId(PrakaranId(k), j);
    if IdBefore(id, n, k', v') {
      if c: nat :| c < n && id == ContentId(c) {
        ContentIdIsNotVachanId(c, k, j);
      } else {
        var kk: nat, jj: nat :| (kk < k' || (kk == k' && jj < v')) && id == VachanId(PrakaranId(kk), jj);
        VachanIdInjective(k, j, kk, jj);
      }
    }
  }

  /** The item of the block after `p` gets an id not handed out before it, and
      one handed out before the block after it. */
  lemma NewItemIdFresh(p: seq<Block>, b: Block)
    requires OpenedAfter(p, b) > 0
    ensures !IdBefore(ItemFor(p, b).id, |p|, Opened(p) - 1, VersesSinceTitle(p))
    ensures IdBefore(ItemFor(p, b).id, |p| + 1, OpenedAfter(p, b) - 1, VersesAfter(p, b))
  {
    var k', v' := OpenedAfter(p, b) - 1, VersesAfter(p, b);
    if IsVachanText(b.text) {
      VachanIdFresh(k', v' - 1, |p|, Opened(p) - 1, VersesSinceTitle(p));
      assert ItemFor(p, b).id == VachanId(PrakaranId(k'), v' - 1);
    } else {
      ContentIdFresh(|p|, Opened(p) - 1, VersesSinceTitle(p));
      assert ItemFor(p, b).id == ContentId(|p|);
    }
  }

  /** An id handed out before a place was handed out before every later place. */
  lemma IdBeforeLater(id: string, n: nat, k: int, v: nat, n': nat, k': int, v': nat)
    requires IdBefore(id, n, k, v)
    requires n <= n' && (k < k' || (k == k' && v <= v'))
    ensures IdBefore(id, n', k', v')
  {
  }

  /** The ids of the reference items are pairwise distinct, and each was handed
      out before the next block. */
  lemma {:induction false} ExpectedIdsDistinct(blocks: seq<Block>)
    ensures forall i :: 0 <= i < |ExpectedItems(blocks)| ==>
      IdBefore(ExpectedItems(blocks)[i].id, |blocks|, Opened(blocks) - 1, VersesSinceTitle(blocks))
    ensures forall a, b :: 0 <= a < b < |ExpectedItems(blocks)| ==>
      ExpectedItems(blocks)[a].id != ExpectedItems(blocks)[b].id
  {
    if blocks != [] {
      var p, b := blocks[..|blocks| - 1], blocks[|blocks| - 1];
      ExpectedIdsDistinct(p);
      var E := ExpectedItems(p);
      var n, k, v := |p|, Opened(p) - 1, VersesSinceTitle(p);
      var k', v' := OpenedAfter(p, b) - 1, VersesAfter(p, b);
      assert Opened(blocks) - 1 == k' && VersesSinceTitle(blocks) == v';
      forall i | 0 <= i < |E|
        ensures IdBefore(E[i].id, n + 1, k', v')
      {
        IdBeforeLater(E[i].id, n, k, v, n + 1, k', v');
      }
      if OpenedAfter(p, b) > 0 {
        var item := ItemFor(p, b);
        assert ExpectedItems(blocks) == E + [item];
        NewItemIdFresh(p, b);
      }
    }
  }

  /** No two content items of a parse share an id (script.js:45-46, 69-70):
      other items carry the `content-N` id of their position, verse items the
      `prakaran-k-vachan-j` id of their chapter and number, and the two schemes
      never meet. */
  lemma ItemIdsDistinct(blocks: seq<Block>)
    ensures var items := AllContent(Parse(blocks).prakaranData);
      forall a, b :: 0 <= a < b < |items| ==> items[a].id != items[b].id
  {
    FlatListsInOrder(blocks);
    ExpectedIdsDistinct(blocks);
  }
}
