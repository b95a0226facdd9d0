/** The content parser of script.js:40-79: one left-to-right pass over the blocks
    that splits them into chapters, numbers the verses and fills the flat verse list
    and the search index. `Step` is one iteration of the pass, `Parse` the whole
    pass; `ParseContent` is the loop itself, proved to compute `Parse`. */
module Parser {
  import opened Document

  /** The variables the pass updates: the closed chapters, the open one, the
      running id counter and the two flat lists. */
  datatype ParseState = ParseState(
    prakaranData: seq<Prakaran>, current: Option<Prakaran>, counter: nat,
    allVachans: seq<Vachan>, searchIndex: seq<IndexEntry>)

  /** What the pass leaves behind once the open chapter is closed. */
  datatype Parsed = Parsed(prakaranData: seq<Prakaran>, allVachans: seq<Vachan>, searchIndex: seq<IndexEntry>)

  const Initial := ParseState([], None, 0, [], [])

  /** The chapters that exist in a state, the open one last. */
  function Chapters(st: ParseState): seq<Prakaran> {
    st.prakaranData + (if st.current.Some? then [st.current.value] else [])
  }

  /** One iteration of the pass over block `b` (script.js:44-76): take the next
      content id, open a chapter at a title block, then store the block in the
      open chapter, if there is one. */
  function Step(st: ParseState, b: Block): ParseState {
    Store(OpenAt(st, b), b, ContentId(st.counter))
  }

  /** script.js:45, 48-51: the counter moves on; a title block closes the open
      chapter and opens `prakaran-k`, k being the number of chapters closed. */
  function OpenAt(st: ParseState, b: Block): ParseState {
    if OpensPrakaran(b) then
      var data := Chapters(st);
      st.(prakaranData := data, current := Some(Prakaran(b.text, PrakaranId(|data|), [], [])), counter := st.counter + 1)
    else
      st.(counter := st.counter + 1)
  }

  /** script.js:52-76: the block joins the open chapter; a verse block also
      becomes a verse of it and of the flat verse list; a block with text gets
      an index entry. */
  function Store(st: ParseState, b: Block, contentId: string): ParseState {
    match st.current
    case None => st
    case Some(p) =>
      var k := |st.prakaranData|;
      st.(current := Some(p.(content := p.content + [NewItem(p, b, contentId)],
                             vachans := p.vachans + NewVachans(p, b, k))),
          allVachans := st.allVachans + NewVachans(p, b, k),
          searchIndex := st.searchIndex + NewEntries(p, b, contentId, k))
  }

  /** The content item block `b` becomes in chapter `p` (script.js:54, 67-70). */
  function NewItem(p: Prakaran, b: Block, contentId: string): ContentItem {
    if IsVachanText(b.text) then ContentItem(b.classes, b.text, VachanItem, VachanId(p.id, |p.vachans|))
    else ContentItem(b.classes, b.text, Default, contentId)
  }

  /** The verse block `b` becomes in chapter `p`, the k-th chapter (script.js:71). */
  function NewVachans(p: Prakaran, b: Block, k: nat): seq<Vachan> {
    if IsVachanText(b.text) then
      [Vachan(VachanId(p.id, |p.vachans|), DisplayText(b.text), k, p.title, |p.vachans| + 1)]
    else []
  }

  /** The index entry of block `b` in chapter `p`, the k-th chapter (script.js:56-65). */
  function NewEntries(p: Prakaran, b: Block, contentId: string, k: nat): seq<IndexEntry> {
    var isVachan := IsVachanText(b.text);
    if b.text != "" then
      [IndexEntry(b.text, k, contentId, p.title, isVachan, if isVachan then Some(|p.vachans| + 1) else None)]
    else []
  }

  /** The state after the pass has seen `blocks`. */
  function Run(blocks: seq<Block>): ParseState {
    if blocks == [] then Initial else Step(Run(blocks[..|blocks| - 1]), blocks[|blocks| - 1])
  }

  /** The whole pass, including the final push of the open chapter (script.js:78). */
  function Parse(blocks: seq<Block>): Parsed {
    var st := Run(blocks);
    Parsed(Chapters(st), st.allVachans, st.searchIndex)
  }

  lemma RunExtends(blocks: seq<Block>, i: nat)
    requires i < |blocks|
    ensures Run(blocks[..i + 1]) == Step(Run(blocks[..i]), blocks[i])
  {
    assert blocks[..i + 1][..i] == blocks[..i];
  }

  /** `parseContent`: the loop over the children of the original-content container. */
  method ParseContent(blocks: array<Block>) returns (result: Parsed)
    ensures result == Parse(blocks[..])
  {
    var prakaranData: seq<Prakaran> := [];
    var allVachans: seq<Vachan> := [];
    var searchIndex: seq<IndexEntry> := [];
    var currentPrakaran: Option<Prakaran> := None;
    var paragraphIdCounter: nat := 0;
    for i := 0 to blocks.Length
      invariant ParseState(prakaranData, currentPrakaran, paragraphIdCounter, allVachans, searchIndex)
        == Run(blocks[..i])
    {
      var b := blocks[i];
      ghost var before := ParseState(prakaranData, currentPrakaran, paragraphIdCounter, allVachans, searchIndex);
      RunExtends(blocks[..], i);
      var contentId := ContentId(paragraphIdCounter);
      paragraphIdCounter := paragraphIdCounter + 1;
      if OpensPrakaran(b) {
        if currentPrakaran.Some? {
          prakaranData := prakaranData + [currentPrakaran.value];
        }
        currentPrakaran := Some(Prakaran(b.text, PrakaranId(|prakaranData|), [], []));
      }
      assert ParseState(prakaranData, currentPrakaran, paragraphIdCounter, allVachans, searchIndex)
        == OpenAt(before, b);
      if currentPrakaran.Some? {
        var p, newVachans, newEntries := AddBlock(currentPrakaran.value, b, contentId, |prakaranData|);
        currentPrakaran := Some(p);
        allVachans := allVachans + newVachans;
        searchIndex := searchIndex + newEntries;
      }
    }
    assert blocks[..blocks.Length] == blocks[..];
    if currentPrakaran.Some? {
      prakaranData := prakaranData + [currentPrakaran.value];
    }
    result := Parsed(prakaranData, allVachans, searchIndex);
  }

  /** The body of the loop once a chapter is open (script.js:53-75): the block
      joins chapter `p`, the k-th chapter; the verse it may be and the index
      entry it may get are returned for the flat lists. */
  method AddBlock(p: Prakaran, b: Block, contentId: string, k: nat)
    returns (p': Prakaran, vachans: seq<Vachan>, entries: seq<IndexEntry>)
    ensures vachans == NewVachans(p, b, k) && entries == NewEntries(p, b, contentId, k)
    ensures p' == p.(content := p.content + [NewItem(p, b, contentId)], vachans := p.vachans + vachans)
  {
    var localVachanNumber := |p.vachans| + 1;
    var item := ContentItem(b.classes, b.text, Default, contentId);
    entries := [];
    if b.text != "" {
      var isVachan := IsVachanText(b.text);
      entries := [IndexEntry(b.text, k, contentId, p.title, isVachan, if isVachan then Some(localVachanNumber) else None)];
    }
    vachans := [];
    if IsVachanText(b.text) {
      var vachanId := VachanId(p.id, localVachanNumber - 1);
      item := item.(kind := VachanItem, id := vachanId);
      vachans := [Vachan(vachanId, DisplayText(b.text), k, p.title, localVachanNumber)];
    }
    p' := p.(content := p.content + [item], vachans := p.vachans + vachans);
  }
}
