/**
 The reader page's state (src/pages/StoryReaderPage.tsx): the outcome of
 loading the story named by the route, manual paging with bounds guards,
 and the choice of view. Loading itself is `StoryLoader.LoadStory`; here
 its outcome is an input.
 */
module StoryReaderPage {
  import opened Common
  import opened StoryLoader

  /** `story`, `currentPage`, `isLoading`, `error`. */
  datatype ReaderState = ReaderState(story: Option<StoryData>, currentPage: int, isLoading: bool, error: Option<string>)

  /** The state before the effect first runs. */
  const Initial := ReaderState(None, 0, true, None)

  /** `await loadStory(slug)`: it returns a story or null, or it throws. */
  datatype LoadOutcome = Returned(story: Option<StoryData>) | Threw

  const NoStoryMessage := "No story specified"
  const NotFoundMessage := "Story not found"
  const LoadFailedMessage := "Failed to load story"

  /** JavaScript truthiness of an optional string. */
  predicate Truthy(v: Option<string>) {
    v.Some? && v.value != ""
  }

  /**
   `initializeStory`: a missing or empty slug is an error; otherwise the
   load outcome either installs the story at page 0 or records an error.
   Loading ends in every case. Nothing is cleared beforehand, so the story
   and error of an earlier slug stay where the new outcome does not replace
   them.
   */
  function Initialize(s: ReaderState, slug: Option<string>, outcome: LoadOutcome): (t: ReaderState)
    ensures !t.isLoading
    ensures !Truthy(slug) ==> t == s.(error := Some(NoStoryMessage), isLoading := false)
    ensures Truthy(slug) && outcome.Returned? && outcome.story.Some? ==>
      t == s.(story := outcome.story, currentPage := 0, isLoading := false)
    ensures Truthy(slug) && outcome == Returned(None) ==> t == s.(error := Some(NotFoundMessage), isLoading := false)
    ensures Truthy(slug) && outcome == Threw ==> t == s.(error := Some(LoadFailedMessage), isLoading := false)
  {
    if !Truthy(slug) then s.(error := Some(NoStoryMessage), isLoading := false)
    else
      match outcome
      case Returned(Some(story)) => s.(story := Some(story), currentPage := 0, isLoading := false)
      case Returned(None) => s.(error := Some(NotFoundMessage), isLoading := false)
      case Threw => s.(error := Some(LoadFailedMessage), isLoading := false)
  }

  /** The guard of `nextPage`, which is also `canGoNext`. */
  predicate CanGoNext(s: ReaderState) {
    s.story.Some? && s.currentPage < |s.story.value.pages| - 1
  }

  /** The guard of `prevPage`, which is also `canGoPrev`. */
  predicate CanGoPrev(s: ReaderState) {
    s.currentPage > 0
  }

  function NextPage(s: ReaderState): (t: ReaderState)
    ensures t.story == s.story && t.isLoading == s.isLoading && t.error == s.error
  {
    if s.story.Some? && s.currentPage < |s.story.value.pages| - 1 then s.(currentPage := s.currentPage + 1) else s
  }

  function PrevPage(s: ReaderState): (t: ReaderState)
    ensures t.story == s.story && t.isLoading == s.isLoading && t.error == s.error
  {
    if s.currentPage > 0 then s.(currentPage := s.currentPage - 1) else s
  }

  /**
   What the page renders: a spinner, an error message, or the book. The
   book reads `story.pages[currentPage].text`; an index outside the pages
   reads `undefined` and the property access throws (`RenderThrows`).
   */
  datatype View =
    | Loading
    | ErrorView(message: string)
    | Book(page: StoryPage, currentPage: int, totalPages: nat, canGoNext: bool, canGoPrev: bool)
    | RenderThrows

  function Render(s: ReaderState): (v: View)
    ensures v.Loading? <==> s.isLoading
    ensures v.ErrorView? <==> !s.isLoading && (Truthy(s.error) || s.story.None?)
    ensures v.ErrorView? ==> v.message == (if Truthy(s.error) then s.error.value else NotFoundMessage)
    ensures v.Book? ==> s.story.Some? && 0 <= s.currentPage < |s.story.value.pages|
                        && v.page == s.story.value.pages[s.currentPage]
                        && v.totalPages == |s.story.value.pages|
  {
    if s.isLoading then Loading
    else if Truthy(s.error) || s.story.None? then ErrorView(if Truthy(s.error) then s.error.value else NotFoundMessage)
    else
      var pages := s.story.value.pages;
      if 0 <= s.currentPage < |pages| then
        Book(pages[s.currentPage], s.currentPage, |pages|,
             s.currentPage < |pages| - 1, s.currentPage > 0)
      else RenderThrows
  }

  // ---------------------------------------------------------------------------
  // properties

  /** The page index is never negative and stays inside a non-empty page list. */
  predicate Valid(s: ReaderState) {
    && s.currentPage >= 0
    && (s.story.Some? && |s.story.value.pages| > 0 ==> s.currentPage < |s.story.value.pages|)
  }

  /** Every transition keeps the state valid. */
  lemma TransitionsPreserveValid(s: ReaderState, slug: Option<string>, outcome: LoadOutcome)
    requires Valid(s)
    ensures Valid(Initial)
    ensures Valid(Initialize(s, slug, outcome))
    ensures Valid(NextPage(s)) && Valid(PrevPage(s))
  {
  }

  /**
   The paging buttons are enabled exactly when the handlers would move:
   `nextPage` increments iff `canGoNext`, `prevPage` decrements iff
   `canGoPrev`, and otherwise each leaves the state unchanged.
   */
  lemma PagingGuards(s: ReaderState)
    ensures CanGoNext(s) ==> NextPage(s) == s.(currentPage := s.currentPage + 1)
    ensures !CanGoNext(s) ==> NextPage(s) == s
    ensures CanGoPrev(s) ==> PrevPage(s) == s.(currentPage := s.currentPage - 1)
    ensures !CanGoPrev(s) ==> PrevPage(s) == s
    ensures Render(s).Book? ==> Render(s).canGoNext == CanGoNext(s) && Render(s).canGoPrev == CanGoPrev(s)
  {
  }

  /**
   From the initial state, the view after loading is decided by the
   outcome alone: no slug, a null story or a throw show their message; a
   story shows its first page, or throws when it has no pages.
   */
  lemma FirstLoadView(slug: Option<string>, outcome: LoadOutcome)
    ensures var v := Render(Initialize(Initial, slug, outcome));
      && (!Truthy(slug) ==> v == ErrorView(NoStoryMessage))
      && (Truthy(slug) && outcome == Returned(None) ==> v == ErrorView(NotFoundMessage))
      && (Truthy(slug) && outcome == Threw ==> v == ErrorView(LoadFailedMessage))
      && (Truthy(slug) && outcome.Returned? && outcome.story.Some? ==>
            var pages := outcome.story.value.pages;
            (|pages| > 0 ==> v == Book(pages[0], 0, |pages|, 0 < |pages| - 1, false))
            && (|pages| == 0 ==> v == RenderThrows))
  {
  }

  /**
   A valid state showing a story with pages always renders the book at the
   current page: only an empty page list reaches `RenderThrows`.
   */
  lemma ValidNeverThrows(s: ReaderState)
    requires Valid(s)
    ensures Render(s) == RenderThrows <==>
      !s.isLoading && !Truthy(s.error) && s.story.Some? && |s.story.value.pages| == 0
  {
  }

  /**
   An error recorded for an earlier slug is never cleared: a later
   successful load installs the story, yet the error view still shows.
   */
  lemma EarlierErrorPersists(s: ReaderState, slug: Option<string>, story: StoryData)
    requires Truthy(s.error) && Truthy(slug)
    ensures Initialize(s, slug, Returned(Some(story))).story == Some(story)
    ensures Render(Initialize(s, slug, Returned(Some(story)))) == ErrorView(s.error.value)
  {
  }
}
