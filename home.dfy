/**
 * The page of `src/pages/Home.jsx`: the `activeTab` state cell switched by two tab buttons,
 * the panel each value renders, the notes count badge, the empty-notes message, and the
 * contact anchors.
 */
module Home {
  import opened Wrappers
  import NotesTab
  import ContactLink

  const OverviewTab: string := "overview"
  const NotesTabValue: string := "notes"

  /** A value a tab button can set. */
  predicate IsTabValue(tab: string)
  {
    tab == OverviewTab || tab == NotesTabValue
  }

  predicate ShowsOverviewPanel(tab: string)
  {
    tab == OverviewTab
  }

  predicate ShowsNotesPanel(tab: string)
  {
    tab == NotesTabValue
  }

  /** For every value the buttons can set, exactly one of the two panels renders. */
  lemma ExactlyOnePanel(tab: string)
    requires IsTabValue(tab)
    ensures ShowsOverviewPanel(tab) != ShowsNotesPanel(tab)
  {
  }

  /** An entry of the `notes` list of `src/data/content.js`: a title, a date and a link. */
  datatype NoteEntry = NoteEntry(title: string, date: string, link: string)

  /** What a `TabButton` is given: whether it is active, its label text, and its optional count. */
  datatype TabButton = TabButton(isActive: bool, caption: string, count: Option<nat>)

  /** `notes?.length`: the count passed to the notes button, undefined when the list is. */
  function BadgeCount<T>(notes: Option<seq<T>>): (r: Option<nat>)
    ensures r.Some? <==> notes.Some?
    ensures r.Some? ==> r.value == |notes.value|
  {
    match notes
    case None => None
    case Some(ns) => Some(|ns|)
  }

  /** The badge renders when the count is defined, zero included. */
  predicate ShowsBadge(b: TabButton)
  {
    b.count.Some?
  }

  /** The two buttons of the tab bar, in order; the overview button has no count. */
  function TabButtons(activeTab: string, notes: Option<seq<NoteEntry>>): (r: seq<TabButton>)
    ensures |r| == 2
    ensures r[0].isActive <==> ShowsOverviewPanel(activeTab)
    ensures r[1].isActive <==> ShowsNotesPanel(activeTab)
    ensures !ShowsBadge(r[0])
    ensures ShowsBadge(r[1]) <==> notes.Some?
    ensures ShowsBadge(r[1]) ==> r[1].count.value == |notes.value|
  {
    [TabButton(activeTab == OverviewTab, "Overview", None),
     TabButton(activeTab == NotesTabValue, "Notes", BadgeCount(notes))]
  }

  /**
   * With a present but empty list, the notes button still shows a badge (reading 0) and the
   * notes panel shows the empty message; with no list, neither shows a badge.
   */
  lemma EmptyNotesBadge(activeTab: string)
    ensures var b := TabButtons(activeTab, Some([]));
      ShowsBadge(b[1]) && b[1].count == Some(0) && NotesTab.ShowsEmptyMessage<NoteEntry>(Some([]))
    ensures !ShowsBadge(TabButtons(activeTab, None)[1]) && NotesTab.ShowsEmptyMessage<NoteEntry>(None)
  {
  }

  /** The page's state: the selected tab, the notes list and the contacts it renders. */
  class HomePage {
    var activeTab: string
    const notes: Option<seq<NoteEntry>>
    const contact: seq<ContactLink.Contact>

    predicate Valid()
      reads this
    {
      IsTabValue(activeTab)
    }

    /** The page opens on the overview tab. */
    constructor (notes0: Option<seq<NoteEntry>>, contact0: seq<ContactLink.Contact>)
      ensures Valid() && activeTab == OverviewTab && notes == notes0 && contact == contact0
    {
      activeTab := OverviewTab;
      notes := notes0;
      contact := contact0;
    }

    /** A tab button's click: set the tab to that button's own value. */
    method SelectTab(value: string)
      requires IsTabValue(value)
      modifies this
      ensures Valid() && activeTab == value
    {
      activeTab := value;
    }

    /** The buttons and the panel currently rendered. */
    function Buttons(): (r: seq<TabButton>)
      reads this
      ensures |r| == 2 && (r[1].isActive <==> activeTab == NotesTabValue)
    {
      TabButtons(activeTab, notes)
    }

    /** The contact anchors of the header. */
    function ContactAnchors(): (r: seq<ContactLink.Anchor>)
      ensures |r| == |contact|
      ensures forall k :: 0 <= k < |r| ==> HttpPrefix(r[k].href)
    {
      ContactLink.Anchors(contact)
    }
  }

  /** Every rendered contact target starts with `http`. */
  predicate HttpPrefix(href: string)
  {
    ContactLink.HttpPrefix <= href
  }
}
