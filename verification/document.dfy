/** The records the reader builds from the pre-rendered document (script.js:25-27,
    50, 54, 57-64, 71), the text markers it recognises, and the anchor ids it
    gives to chapters ("prakaran"), content items and verses ("vachan"). */
module Document {
  import opened Text

  datatype Option<T> = None | Some(value: T)

  /** One child of the original-content container, seen through the two things the
      reader asks of it: its CSS classes and its rendered text after `trim()`. */
  datatype Block = Block(classes: set<string>, text: string)

  datatype ItemKind = Default | VachanItem

  /** A content item of a chapter. Tag name and inner markup are carried along by
      the script but never inspected; they are not part of this model. */
  datatype ContentItem = ContentItem(classes: set<string>, text: string, kind: ItemKind, id: string)

  datatype Vachan = Vachan(id: string, text: string, prakaranIndex: nat, prakaranTitle: string, number: nat)

  datatype Prakaran = Prakaran(title: string, id: string, content: seq<ContentItem>, vachans: seq<Vachan>)

  datatype IndexEntry = IndexEntry(
    text: string, prakaranIndex: nat, elementId: string, prakaranTitle: string,
    isVachan: bool, vachanNumber: Option<nat>)

  const ChapterClass := "p5"
  const VerseClass := "p9"
  const VachanPrefix := "वचन"
  const TikaPrefix := "टीका :-"
  const LapikaPrefix := "लापिका :-"

  /** A block with class p5 and non-empty text starts a new chapter. */
  predicate OpensPrakaran(b: Block) {
    ChapterClass in b.classes && b.text != ""
  }

  predicate IsOpenerItem(item: ContentItem) {
    ChapterClass in item.classes && item.text != ""
  }

  predicate IsVachanText(t: string) {
    StartsWith(t, VachanPrefix)
  }

  function ContentId(n: nat): string {
    "content-" + NatStr(n)
  }

  function PrakaranId(k: nat): string {
    "prakaran-" + NatStr(k)
  }

  function VachanId(prakaranId: string, j: nat): string {
    prakaranId + "-vachan-" + NatStr(j)
  }

  lemma ContentIdInjective(a: nat, b: nat)
    requires ContentId(a) == ContentId(b)
    ensures a == b
  {
    var pre := "content-";
    assert NatStr(a) == ContentId(a)[|pre|..];
    assert NatStr(b) == ContentId(b)[|pre|..];
    NatStrInjective(a, b);
  }

  lemma VachanIdInjective(k1: nat, j1: nat, k2: nat, j2: nat)
    requires VachanId(PrakaranId(k1), j1) == VachanId(PrakaranId(k2), j2)
    ensures k1 == k2 && j1 == j2
  {
    var pre, sep := "prakaran-", "-vachan-";
    VachanIdParts(k1, j1);
    VachanIdParts(k2, j2);
    SameTail(pre, NatStr(k1) + (sep + NatStr(j1)), NatStr(k2) + (sep + NatStr(j2)));
    DigitsThenSeparator(NatStr(k1), NatStr(k2), sep + NatStr(j1), sep + NatStr(j2));
    SameTail(sep, NatStr(j1), NatStr(j2));
    NatStrInjective(k1, k2);
    NatStrInjective(j1, j2);
  }

  lemma VachanIdParts(k: nat, j: nat)
    ensures VachanId(PrakaranId(k), j) == "prakaran-" + (NatStr(k) + ("-vachan-" + NatStr(j)))
  {
  }

  lemma SameTail(pre: string, x: string, y: string)
    requires pre + x == pre + y
    ensures x == y
  {
    assert x == (pre + x)[|pre|..];
    assert y == (pre + y)[|pre|..];
  }

  /** A generic content anchor and a verse anchor never coincide. */
  lemma ContentIdIsNotVachanId(n: nat, k: nat, j: nat)
    ensures ContentId(n) != VachanId(PrakaranId(k), j)
  {
    assert ContentId(n)[0] == 'c';
    assert VachanId(PrakaranId(k), j)[0] == 'p';
  }

  /** The characters `[:\-–—]` of the verse-marker pattern. */
  predicate IsDash(c: char) {
    c == ':' || c == '-' || c == '\U{2013}' || c == '\U{2014}'
  }

  predicate AllDashes(s: string) {
    forall i :: 0 <= i < |s| ==> IsDash(s[i])
  }

  /** `s` with the longest run of dash characters at its front removed. */
  function SkipDashes(s: string): (r: string)
    ensures r == [] || !IsDash(r[0])
  {
    if s != [] && IsDash(s[0]) then SkipDashes(s[1..]) else s
  }

  /** What `SkipDashes` removes is a run of dashes at the front. */
  lemma {:induction false} SkipDashesShape(s: string)
    ensures |SkipDashes(s)| <= |s| && SkipDashes(s) == s[|s| - |SkipDashes(s)|..]
    ensures AllDashes(s[..|s| - |SkipDashes(s)|])
  {
    if s != [] && IsDash(s[0]) {
      SkipDashesShape(s[1..]);
    }
  }

  /** The text a verse is listed under: the block text with the pattern
      `^वचन\s*[:\-–—]*` replaced by nothing, then trimmed. */
  function DisplayText(t: string): string {
    if IsVachanText(t) then Trim(SkipDashes(TrimStart(t[|VachanPrefix|..]))) else Trim(t)
  }

  lemma {:induction false} SkipDashesOfDashes(dashes: string, s: string)
    requires AllDashes(dashes) && (s == [] || !IsDash(s[0]))
    ensures SkipDashes(dashes + s) == s
  {
    if dashes != [] {
      assert (dashes + s)[1..] == dashes[1..] + s;
      SkipDashesOfDashes(dashes[1..], s);
    } else {
      assert dashes + s == s;
    }
  }

  lemma PrefixThenRest(p: string, r: string)
    ensures StartsWith(p + r, p) && (p + r)[|p|..] == r
  {
    assert (p + r)[..|p|] == p;
  }

  /** What follows the marker: whitespace before the dashes is skipped by `\s*`,
      the dashes by `[:\-–—]*`, whitespace after them by the final trim. */
  lemma MarkerTail(dashes: string, gap2: string, d: string)
    requires AllDashes(dashes) && AllSpace(gap2)
    requires IsTrimmed(d) && (d == [] || !IsDash(d[0]))
    ensures Trim(SkipDashes(TrimStart(dashes + (gap2 + d)))) == d
  {
    var rest := gap2 + d;
    if dashes != [] {
      DashesFirst(dashes, rest);
      GapThenText(gap2, d);
      SkipDashesOfDashes(dashes, rest);
      TrimGapThenText(gap2, d);
      assert SkipDashes(TrimStart(dashes + rest)) == rest;
    } else {
      assert dashes + rest == rest;
      GapThenTrimmed(gap2, d);
    }
  }

  lemma GapThenTrimmed(gap2: string, d: string)
    requires AllSpace(gap2)
    requires IsTrimmed(d) && (d == [] || !IsDash(d[0]))
    ensures Trim(SkipDashes(TrimStart(gap2 + d))) == d
  {
    TrimStartSpaces(gap2, d);
    TrimStartOfTrimmed(d);
    assert SkipDashes(d) == d;
    TrimOfTrimmed(d);
  }

  lemma TrimGapThenText(gap: string, d: string)
    requires AllSpace(gap) && IsTrimmed(d)
    ensures Trim(gap + d) == d
  {
    assert gap + d + [] == gap + d;
    TrimPadded(gap, d, []);
    TrimOfTrimmed(d);
  }

  lemma DashesFirst(dashes: string, s: string)
    requires AllDashes(dashes) && dashes != []
    ensures TrimStart(dashes + s) == dashes + s
  {
    assert (dashes + s)[0] == dashes[0];
  }

  lemma GapThenText(gap: string, d: string)
    requires AllSpace(gap) && (d == [] || !IsDash(d[0]))
    ensures gap + d == [] || !IsDash((gap + d)[0])
  {
    if gap != [] { assert (gap + d)[0] == gap[0]; } else { assert gap + d == d; }
  }

  lemma TrimStartOfTrimmed(d: string)
    requires IsTrimmed(d)
    ensures TrimStart(d) == d
  {
  }

  /** Stripping the marker inverts writing it: a verse written as the marker, any
      whitespace, any run of `:`, `-`, `–`, `—`, more whitespace and then its text
      is listed under exactly that text. */
  lemma DisplayTextRoundTrip(gap: string, dashes: string, gap2: string, d: string)
    requires AllSpace(gap) && AllDashes(dashes) && AllSpace(gap2)
    requires IsTrimmed(d) && (d == [] || !IsDash(d[0]))
    ensures DisplayText(VachanPrefix + gap + dashes + gap2 + d) == d
  {
    var u := dashes + (gap2 + d);
    assert VachanPrefix + gap + dashes + gap2 + d == VachanPrefix + (gap + u);
    PrefixThenRest(VachanPrefix, gap + u);
    TrimStartSpaces(gap, u);
    MarkerTail(dashes, gap2, d);
  }
}
