/** Chapter navigation (script.js:101-110, 426-457): `showPrakaran` activates the
    page of a chapter, or the welcome page for an index outside the chapter
    list, and the previous/next buttons under each chapter call it with the
    neighbouring index. */
module Navigation {
  import opened Document

  /** The title shown with the welcome page (script.js:430). */
  const WelcomeTitle := "स्थळ पोथी"

  /** Which page of the content panel carries the class `active`. */
  datatype Screen = Welcome | ChapterPage(index: nat) | NoPage

  /** The page state `showPrakaran` reads and writes. The chapters and the ids
      present in the page are fixed once the pages are built. */
  class Reader {
    const prakaranData: seq<Prakaran>
    /** The ids of the elements of the page, as `getElementById` finds them. */
    const anchors: set<string>
    var currentPrakaranIndex: int
    var screen: Screen
    var titleText: string
    /** The element last scheduled to be scrolled to and flashed. */
    var highlighted: Option<string>
    var scrollTop: nat
    var sidebarOpen: bool

    /** The current index is -1 (nothing shown yet) or a chapter, and so is an
        active chapter page. */
    predicate Valid()
      reads this
    {
      -1 <= currentPrakaranIndex < |prakaranData| &&
      (screen.ChapterPage? ==> screen.index < |prakaranData|)
    }

    /** The state after loading (script.js:28, 116): no chapter chosen yet, the
        welcome page active. */
    constructor(ps: seq<Prakaran>, ids: set<string>)
      ensures prakaranData == ps && anchors == ids
      ensures currentPrakaranIndex == -1 && screen == Welcome && highlighted == None
      ensures Valid()
    {
      prakaranData := ps;
      anchors := ids;
      currentPrakaranIndex := -1;
      screen := Welcome;
      titleText := "";
      highlighted := None;
      scrollTop := 0;
      sidebarOpen := false;
    }

    /** `showPrakaran(index, elementId)`; an empty `elementId` stands for the
        absent one. An index outside the chapter list shows the welcome page and
        returns before anything else changes; otherwise the chapter becomes the
        current one, its page is activated when it exists, and the page scrolls
        to the element, when there is one, or to the top. */
    method ShowPrakaran(index: int, elementId: string)
      requires Valid()
      modifies this
      ensures Valid()
      ensures index < 0 || index >= |prakaranData| ==>
        currentPrakaranIndex == old(currentPrakaranIndex) && screen == Welcome &&
        titleText == WelcomeTitle && highlighted == old(highlighted) &&
        scrollTop == old(scrollTop) && sidebarOpen == old(sidebarOpen)
      ensures 0 <= index < |prakaranData| ==>
        currentPrakaranIndex == index && !sidebarOpen &&
        if prakaranData[index].id in anchors then
          screen == ChapterPage(index) && titleText == prakaranData[index].title &&
          highlighted == (if elementId != "" && elementId in anchors then Some(elementId) else old(highlighted)) &&
          scrollTop == (if elementId == "" then 0 else old(scrollTop))
        else
          screen == NoPage && titleText == old(titleText) &&
          highlighted == old(highlighted) && scrollTop == old(scrollTop)
    {
      if index < 0 || index >= |prakaranData| {
        screen := Welcome;
        titleText := WelcomeTitle;
        return;
      }
      currentPrakaranIndex := index;
      screen := NoPage;
      if prakaranData[index].id in anchors {
        screen := ChapterPage(index);
        titleText := prakaranData[index].title;
        if elementId != "" {
          if elementId in anchors {
            highlighted := Some(elementId);
          }
        } else {
          scrollTop := 0;
        }
      }
      sidebarOpen := false;
    }
  }

  /** Whether the previous and next buttons under chapter `index` of `count` are
      disabled (script.js:104, 108). */
  datatype NavButtons = NavButtons(prevDisabled: bool, nextDisabled: bool)

  function NavFor(index: nat, count: nat): NavButtons {
    NavButtons(index == 0, index == count - 1)
  }

  /** A button that is not disabled leads to a chapter that exists: `←` to
      `index - 1` and `→` to `index + 1`; the first chapter has no previous and
      the last no next. */
  lemma NavStaysInRange(index: nat, count: nat)
    requires index < count
    ensures !NavFor(index, count).prevDisabled <==> 0 <= index - 1 < count
    ensures !NavFor(index, count).nextDisabled <==> index + 1 < count
  {
  }
}
