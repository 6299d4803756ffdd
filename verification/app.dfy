/**
 The prototype application shell (src/App.tsx): a landing page over five
 built-in stories and a book that pages through them. Only the ids and
 titles are kept from the built-in records.
 */
module App {
  import opened Common

  /** A built-in story; its `content` and `image` are not modelled. */
  datatype Story = Story(id: int, title: string)

  const Stories: seq<Story> := [
    Story(1, "The Mountain's Call"),
    Story(2, "Whispers of the Forest"),
    Story(3, "Ocean's Embrace"),
    Story(4, "City of Dreams"),
    Story(5, "Desert Nights")
  ]

  /** `currentPage`, `selectedStory`. */
  datatype AppState = AppState(currentPage: int, selectedStory: Option<int>)

  const Initial := AppState(0, None)

  /** The guard of `nextPage`, which is also `canGoNext`. */
  predicate CanGoNext(s: AppState) {
    s.currentPage < |Stories| - 1
  }

  /** The guard of `prevPage`, which is also `canGoPrev`. */
  predicate CanGoPrev(s: AppState) {
    s.currentPage > 0
  }

  function NextPage(s: AppState): (t: AppState)
    ensures t.selectedStory == s.selectedStory
    ensures t.currentPage == s.currentPage || t.currentPage == s.currentPage + 1
  {
    if s.currentPage < |Stories| - 1 then s.(currentPage := s.currentPage + 1) else s
  }

  function PrevPage(s: AppState): (t: AppState)
    ensures t.selectedStory == s.selectedStory
    ensures t.currentPage == s.currentPage || t.currentPage == s.currentPage - 1
  {
    if s.currentPage > 0 then s.(currentPage := s.currentPage - 1) else s
  }

  /** `handleSelectStory`: the index is taken as given, with no bounds check. */
  function SelectStory(s: AppState, index: int): (t: AppState)
    ensures t.currentPage == index && t.selectedStory == Some(index)
  {
    AppState(index, Some(index))
  }

  /** `handleBackToHome`: only the selection is cleared. */
  function BackToHome(s: AppState): (t: AppState)
    ensures t.selectedStory.None? && t.currentPage == s.currentPage
  {
    s.(selectedStory := None)
  }

  /**
   The landing page, or the book at `stories[currentPage]`; an index
   outside the list gives the book an undefined story (`None`).
   */
  datatype View =
    | Landing(stories: seq<Story>)
    | Book(story: Option<Story>, currentPage: int, totalPages: nat, canGoNext: bool, canGoPrev: bool)

  function Render(s: AppState): (v: View)
    ensures v.Landing? <==> s.selectedStory.None?
    ensures v.Landing? ==> v.stories == Stories
    ensures v.Book? ==> v.totalPages == |Stories| && v.currentPage == s.currentPage
    ensures v.Book? ==> (v.story.Some? <==> 0 <= s.currentPage < |Stories|)
    ensures v.Book? && v.story.Some? ==> v.story.value == Stories[s.currentPage]
  {
    match s.selectedStory
    case None => Landing(Stories)
    case Some(_) =>
      Book(if 0 <= s.currentPage < |Stories| then Some(Stories[s.currentPage]) else None,
           s.currentPage, |Stories|, s.currentPage < |Stories| - 1, s.currentPage > 0)
  }

  // ---------------------------------------------------------------------------
  // properties

  /** The page index names one of the built-in stories. */
  predicate Valid(s: AppState) {
    0 <= s.currentPage < |Stories|
  }

  /**
   Paging and going home keep the index in range; selecting keeps it in
   range exactly when the selected index is one of the stories.
   */
  lemma TransitionsPreserveValid(s: AppState, index: int)
    requires Valid(s)
    ensures Valid(Initial)
    ensures Valid(NextPage(s)) && Valid(PrevPage(s)) && Valid(BackToHome(s))
    ensures Valid(SelectStory(s, index)) <==> 0 <= index < |Stories|
  {
  }

  /**
   The paging buttons are enabled exactly when the handlers would move,
   and each handler changes nothing when disabled.
   */
  lemma PagingGuards(s: AppState)
    ensures CanGoNext(s) <==> NextPage(s) != s
    ensures CanGoPrev(s) <==> PrevPage(s) != s
    ensures Render(s).Book? ==> Render(s).canGoNext == CanGoNext(s) && Render(s).canGoPrev == CanGoPrev(s)
  {
  }

  /**
   In a valid state the book always has a story; the one shown is chosen by
   `currentPage`, so after paging it differs from the selected index, and
   going home and back to the landing page keeps the page reached.
   */
  lemma BookFollowsCurrentPage(s: AppState, index: int)
    requires 0 <= index < |Stories| - 1
    ensures Render(NextPage(SelectStory(s, index))) == Book(Some(Stories[index + 1]), index + 1, |Stories|, index + 1 < |Stories| - 1, true)
    ensures NextPage(SelectStory(s, index)).selectedStory == Some(index)
    ensures Render(BackToHome(NextPage(SelectStory(s, index)))) == Landing(Stories)
    ensures BackToHome(NextPage(SelectStory(s, index))).currentPage == index + 1
  {
  }

  lemma ValidBookHasStory(s: AppState)
    requires Valid(s) && s.selectedStory.Some?
    ensures Render(s).Book? && Render(s).story == Some(Stories[s.currentPage])
  {
  }
}
