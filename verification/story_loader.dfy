/**
 The story loader (src/services/storyLoader.ts): asset URL construction, the
 all-or-nothing merge of a story's `meta.json` and `en.json`, manifest
 filtering, and id assignment.

 Every network result is an input value: the manifest response, one
 availability probe per manifest slug, and one pair of fetched documents per
 available slug. `None` for a document stands for every way its fetch can
 fail (rejected promise, non-ok status, unparsable body); the loader turns
 all of them into `null` alike.
 */
module StoryLoader {
  import opened Common

  /** Origin of every relative image URL, in every environment. */
  const CdnImageBaseUrl := "https://cdn.aistories.online"
  /** `CDN_BASE_URL` when served from a loopback host: the dev-server proxy. */
  const ProxyBaseUrl := "/api/cdn"
  /** The fixed cover file every story card uses. */
  const CoverFileName := "cover.webp"
  /** Card cover used when neither a cover nor a first page exists. */
  const PlaceholderCover := "/placeholder-cover.webp"

  /** `CDN_BASE_URL`, chosen once from the page's hostname (`None`: no `window`). */
  function CdnBaseUrl(hostname: Option<string>): (base: string)
    ensures base == ProxyBaseUrl <==> hostname == Some("localhost") || hostname == Some("127.0.0.1")
    ensures base != ProxyBaseUrl ==> base == CdnImageBaseUrl
  {
    var isDevelopment := hostname.Some? && (hostname.value == "localhost" || hostname.value == "127.0.0.1");
    assert ProxyBaseUrl[0] != CdnImageBaseUrl[0];
    if isDevelopment then "/api/cdn" else "https://cdn.aistories.online"
  }

  // ---------------------------------------------------------------------------
  // Records

  /** A page of a loaded story (src/types/story.ts). */
  datatype StoryPage = StoryPage(page: int, image: string, text: string, chapter: Option<string>, timestamp: Option<real>)

  /** A page as `en.json` holds it; `image: None` is a page without an `image` string. */
  datatype RawPage = RawPage(page: int, image: Option<string>, text: string, chapter: Option<string>, timestamp: Option<real>)

  /** The fields of `meta.json` the loader reads. */
  datatype StoryMeta = StoryMeta(title: string, description: Option<string>, coverImage: Option<string>, audioUrl: Option<string>)

  /** `en.pages`: an array, or a value (missing, an object, ...) that has no `map`. */
  datatype PagesField = PageArray(items: seq<RawPage>) | NotPageArray

  datatype EnContent = EnContent(pages: PagesField)

  /** A parsed `en.json`; `en: None` when it has no `en` member. */
  datatype LanguageData = LanguageData(en: Option<EnContent>)

  /** What the two concurrent fetches of one story delivered. */
  datatype StoryDocuments = StoryDocuments(meta: Option<StoryMeta>, languageData: Option<LanguageData>)

  /** The merge product (`StoryMetadata`). */
  datatype StoryMetadata = StoryMetadata(
    title: string, description: Option<string>, coverImage: string, audioUrl: Option<string>, pages: seq<StoryPage>)

  /** A story as `loadStories` and `loadStory` return it. */
  datatype StoryData = StoryData(
    id: int, slug: string, title: string, description: Option<string>, pages: seq<StoryPage>, audioUrl: Option<string>)

  /** A landing-page card. */
  datatype StoryCardData = StoryCardData(slug: string, title: string, description: Option<string>, coverImage: string)

  /** The manifest `stories.json`: a JSON array, or some other JSON value. */
  datatype ManifestBody = SlugArray(slugs: seq<string>) | NotAnArray

  /** The manifest fetch: an ok response, a non-ok status, or a thrown fetch / parse. */
  datatype ManifestResponse = Ok(body: ManifestBody) | NotOk | FetchFailed

  // ---------------------------------------------------------------------------
  // URL construction

  predicate IsFullUrl(path: string) {
    StartsWith(path, "http://") || StartsWith(path, "https://")
  }

  /**
   `constructImageUrl`: full URLs pass through; anything else is appended to
   the image origin and slug verbatim, so the result is always a full URL.
   */
  function ConstructImageUrl(slug: string, imagePath: string): (url: string)
    ensures IsFullUrl(url)
    ensures IsFullUrl(imagePath) ==> url == imagePath
    ensures !IsFullUrl(imagePath) ==> url == CdnImageBaseUrl + "/" + slug + "/" + imagePath
  {
    if IsFullUrl(imagePath) then imagePath
    else
      StartsWithAppend(CdnImageBaseUrl, "/" + slug + "/" + imagePath, "https://");
      assert CdnImageBaseUrl + "/" + slug + "/" + imagePath == CdnImageBaseUrl + ("/" + slug + "/" + imagePath);
      CdnImageBaseUrl + "/" + slug + "/" + imagePath
  }

  /**
   `constructAudioUrl`: an undefined or empty path has no URL; full URLs pass
   through; anything else hangs below `CDN_BASE_URL` and the slug.
   */
  function ConstructAudioUrl(cdnBase: string, slug: string, audioPath: Option<string>): (url: Option<string>)
    ensures url.None? <==> audioPath.None? || audioPath.value == ""
    ensures url.Some? && IsFullUrl(audioPath.value) ==> url.value == audioPath.value
    ensures url.Some? && !IsFullUrl(audioPath.value) ==> url.value == cdnBase + "/" + slug + "/" + audioPath.value
  {
    match audioPath
    case None => None
    case Some(path) =>
      if path == "" then None
      else if IsFullUrl(path) then Some(path)
      else Some(cdnBase + "/" + slug + "/" + path)
  }

  /** Resolving an already resolved image URL changes nothing. */
  lemma ImageUrlIdempotent(slug: string, imagePath: string)
    ensures ConstructImageUrl(slug, ConstructImageUrl(slug, imagePath)) == ConstructImageUrl(slug, imagePath)
  {
  }

  /** No slash normalisation: a rooted path yields a doubled separator after the slug. */
  lemma RootedPathDoublesSlash(slug: string, path: string)
    ensures ConstructImageUrl(slug, "/" + path) == CdnImageBaseUrl + "/" + slug + "//" + path
  {
    var p := "/" + path;
    assert p[0] == '/';
    assert !StartsWith(p, "http://") by { assert |"http://"| <= |p| ==> p[..7][0] == '/'; }
    assert !StartsWith(p, "https://") by { assert |"https://"| <= |p| ==> p[..8][0] == '/'; }
    assert CdnImageBaseUrl + "/" + slug + "/" + p == CdnImageBaseUrl + "/" + slug + "//" + path;
  }

  /** In production relative audio paths become full URLs too. */
  lemma ProductionAudioUrlIsFull(slug: string, audioPath: Option<string>)
    requires ConstructAudioUrl(CdnImageBaseUrl, slug, audioPath).Some?
    ensures IsFullUrl(ConstructAudioUrl(CdnImageBaseUrl, slug, audioPath).value)
  {
    var path := audioPath.value;
    if !IsFullUrl(path) {
      StartsWithAppend(CdnImageBaseUrl, "/" + slug + "/" + path, "https://");
      assert CdnImageBaseUrl + "/" + slug + "/" + path == CdnImageBaseUrl + ("/" + slug + "/" + path);
    }
  }

  // ---------------------------------------------------------------------------
  // The merge of meta.json and en.json

  /** `p` is `raw` with only its image resolved. */
  predicate ResolvedFrom(slug: string, raw: RawPage, p: StoryPage) {
    && raw.image.Some?
    && p.page == raw.page
    && p.image == ConstructImageUrl(slug, raw.image.value)
    && p.text == raw.text
    && p.chapter == raw.chapter
    && p.timestamp == raw.timestamp
  }

  predicate AllHaveImages(raw: seq<RawPage>) {
    forall i :: 0 <= i < |raw| ==> raw[i].image.Some?
  }

  /**
   The `pages.map(...)` of the merge. A page without an image string makes
   `startsWith` throw, which fails the whole map.
   */
  function ResolvePages(slug: string, raw: seq<RawPage>): (pages: Option<seq<StoryPage>>)
    ensures pages.Some? <==> AllHaveImages(raw)
    ensures pages.Some? ==> |pages.value| == |raw|
    ensures pages.Some? ==> forall i :: 0 <= i < |raw| ==> ResolvedFrom(slug, raw[i], pages.value[i])
  {
    if |raw| == 0 then Some([])
    else
      var rest := ResolvePages(slug, raw[1..]);
      match raw[0].image
      case None => None
      case Some(path) =>
        if rest.None? then
          assert !AllHaveImages(raw[1..]);
          None
        else
          var p := StoryPage(raw[0].page, ConstructImageUrl(slug, path), raw[0].text, raw[0].chapter, raw[0].timestamp);
          assert forall i :: 1 <= i < |raw| ==> raw[i] == raw[1..][i - 1];
          Some([p] + rest.value)
  }

  /** The documents the merge accepts. */
  predicate Mergeable(docs: StoryDocuments) {
    && docs.meta.Some?
    && docs.languageData.Some?
    && docs.languageData.value.en.Some?
    && docs.languageData.value.en.value.pages.PageArray?
    && AllHaveImages(docs.languageData.value.en.value.pages.items)
  }

  /**
   `loadStoryMetadata`: all or nothing. It yields a story exactly when both
   documents arrived, `en.pages` is an array and every page has an image;
   the pages then keep their count, order and fields with only `image`
   resolved, the cover is always the resolution of `cover.webp`, and audio
   comes from `meta.audioUrl` alone.
   */
  function LoadStoryMetadata(cdnBase: string, slug: string, docs: StoryDocuments): (r: Option<StoryMetadata>)
    ensures r.Some? <==> Mergeable(docs)
    ensures r.Some? ==>
      var meta := docs.meta.value;
      var raw := docs.languageData.value.en.value.pages.items;
      && r.value.title == meta.title
      && r.value.description == meta.description
      && r.value.coverImage == ConstructImageUrl(slug, CoverFileName)
      && r.value.audioUrl == ConstructAudioUrl(cdnBase, slug, meta.audioUrl)
      && |r.value.pages| == |raw|
      && forall i :: 0 <= i < |raw| ==> ResolvedFrom(slug, raw[i], r.value.pages[i])
  {
    if docs.meta.None? || docs.languageData.None? || docs.languageData.value.en.None? then None
    else
      var meta := docs.meta.value;
      match docs.languageData.value.en.value.pages
      case NotPageArray => None
      case PageArray(raw) =>
        match ResolvePages(slug, raw)
        case None => None
        case Some(pages) =>
          var coverImage := ConstructImageUrl(slug, CoverFileName);
          var audioUrl := ConstructAudioUrl(cdnBase, slug, meta.audioUrl);
          Some(StoryMetadata(meta.title, meta.description, coverImage, audioUrl, pages))
  }

  /** The cover of a merged story does not depend on what `meta.coverImage` says. */
  lemma MergeIgnoresMetaCover(cdnBase: string, slug: string, docs: StoryDocuments, cover: Option<string>)
    requires docs.meta.Some?
    ensures LoadStoryMetadata(cdnBase, slug, docs.(meta := Some(docs.meta.value.(coverImage := cover))))
         == LoadStoryMetadata(cdnBase, slug, docs)
  {
  }

  /** An empty page array is a valid story with no pages. */
  lemma EmptyPagesAccepted(cdnBase: string, slug: string, meta: StoryMeta)
    ensures LoadStoryMetadata(cdnBase, slug, StoryDocuments(Some(meta), Some(LanguageData(Some(EnContent(PageArray([])))))))
         == Some(StoryMetadata(meta.title, meta.description, ConstructImageUrl(slug, CoverFileName),
                               ConstructAudioUrl(cdnBase, slug, meta.audioUrl), []))
  {
  }

  // ---------------------------------------------------------------------------
  // Manifest and availability

  /** `loadStorySlugs`: the manifest array, or no slugs on any failure. */
  function LoadStorySlugs(manifest: ManifestResponse): (slugs: seq<string>)
    ensures manifest.Ok? && manifest.body.SlugArray? ==> slugs == manifest.body.slugs
    ensures !(manifest.Ok? && manifest.body.SlugArray?) ==> slugs == []
  {
    match manifest
    case Ok(SlugArray(slugs)) => slugs
    case _ => []
  }

  /**
   The slugs whose probe succeeded, in manifest order, duplicates kept: the
   `Promise.all` of probes followed by the `null` filter.
   */
  function AvailableSlugs(slugs: seq<string>, probes: seq<bool>): (available: seq<string>)
    requires |probes| == |slugs|
    ensures |available| == |KeptIndices(probes)|
    ensures forall k :: 0 <= k < |available| ==> available[k] == slugs[KeptIndices(probes)[k]]
  {
    if |slugs| == 0 then []
    else
      var n := |slugs| - 1;
      KeptIndicesSnoc(probes[..n], probes[n]);
      assert probes[..n] + [probes[n]] == probes;
      AvailableSlugs(slugs[..n], probes[..n]) + (if probes[n] then [slugs[n]] else [])
  }

  /**
   Which available slugs merge successfully: the flags handed to
   `KeptIndices` to say which slugs yield a story or a card. The pointwise
   ensures is what the loop lemmas read; it is a definition, not a property.
   */
  function MergeSucceeds(cdnBase: string, slugs: seq<string>, docs: seq<StoryDocuments>): (ok: seq<bool>)
    requires |docs| == |slugs|
    ensures |ok| == |slugs|
    ensures forall i :: 0 <= i < |slugs| ==> ok[i] == LoadStoryMetadata(cdnBase, slugs[i], docs[i]).Some?
  {
    seq(|slugs|, i requires 0 <= i < |slugs| => LoadStoryMetadata(cdnBase, slugs[i], docs[i]).Some?)
  }

  function ToStoryData(id: int, slug: string, metadata: StoryMetadata): StoryData {
    StoryData(id, slug, metadata.title, metadata.description, metadata.pages, metadata.audioUrl)
  }

  /** `story` is what the loader builds from the `j`-th available slug. */
  predicate StoryFrom(cdnBase: string, available: seq<string>, docs: seq<StoryDocuments>, j: nat, story: StoryData)
    requires |docs| == |available|
  {
    && j < |available|
    && var metadata := LoadStoryMetadata(cdnBase, available[j], docs[j]);
    && metadata.Some?
    && story == ToStoryData(j, available[j], metadata.value)
  }

  /** One iteration: the `i`-th available slug contributes when its merge succeeds. */
  method CollectStoriesStep(cdnBase: string, available: seq<string>, docs: seq<StoryDocuments>, i: nat,
                  stories: seq<StoryData>, kept: seq<nat>)
    returns (stories': seq<StoryData>, kept': seq<nat>)
    requires |docs| == |available| && i < |available|
    requires |stories| == |kept|
    requires forall k :: 0 <= k < |stories| ==> StoryFrom(cdnBase, available, docs, kept[k], stories[k])
    ensures kept' == kept + (if LoadStoryMetadata(cdnBase, available[i], docs[i]).Some? then [i] else [])
    ensures |stories'| == |kept'|
    ensures forall k :: 0 <= k < |stories'| ==> StoryFrom(cdnBase, available, docs, kept'[k], stories'[k])
  {
    var slug := available[i];
    var metadata := LoadStoryMetadata(cdnBase, slug, docs[i]);
    stories', kept' := stories, kept;
    if metadata.Some? {
      assert StoryFrom(cdnBase, available, docs, i, ToStoryData(i, slug, metadata.value));
      stories' := stories + [ToStoryData(i, slug, metadata.value)];
      kept' := kept + [i];
    } else {
      assert kept + [] == kept;
    }
  }

  /** The `for` loop of `loadStories` over the available slugs. */
  method CollectStories(cdnBase: string, available: seq<string>, docs: seq<StoryDocuments>) returns (stories: seq<StoryData>)
    requires |docs| == |available|
    ensures var merged := KeptIndices(MergeSucceeds(cdnBase, available, docs));
      && |stories| == |merged|
      && forall k :: 0 <= k < |stories| ==> StoryFrom(cdnBase, available, docs, merged[k], stories[k])
  {
    ghost var ok := MergeSucceeds(cdnBase, available, docs);
    var kept: seq<nat> := [];
    stories := [];
    var i := 0;
    while i < |available|
      invariant 0 <= i <= |available|
      invariant kept == KeptIndices(ok[..i])
      invariant |stories| == |kept|
      invariant forall k :: 0 <= k < |stories| ==> StoryFrom(cdnBase, available, docs, kept[k], stories[k])
    {
      KeptIndicesSnoc(ok[..i], ok[i]);
      assert ok[..i + 1] == ok[..i] + [ok[i]];
      stories, kept := CollectStoriesStep(cdnBase, available, docs, i, stories, kept);
      i := i + 1;
    }
    assert ok[..|available|] == ok;
  }

  /**
   `loadStories`. Each story's id is its index in the list of AVAILABLE
   slugs, so a slug whose merge fails leaves a gap; stories appear in
   manifest order, one per successful merge.
   */
  method LoadStories(cdnBase: string, manifest: ManifestResponse, probes: seq<bool>, docs: seq<StoryDocuments>)
    returns (stories: seq<StoryData>)
    requires |probes| == |LoadStorySlugs(manifest)|
    requires |docs| == |AvailableSlugs(LoadStorySlugs(manifest), probes)|
    ensures
      var available := AvailableSlugs(LoadStorySlugs(manifest), probes);
      var merged := KeptIndices(MergeSucceeds(cdnBase, available, docs));
      && |stories| == |merged|
      && forall k :: 0 <= k < |stories| ==>
           && stories[k].id == merged[k]
           && stories[k].slug == available[merged[k]]
           && StoryFrom(cdnBase, available, docs, merged[k], stories[k])
  {
    var slugs := LoadStorySlugs(manifest);
    var available := AvailableSlugs(slugs, probes);
    if |slugs| == 0 {
      return [];
    }
    stories := CollectStories(cdnBase, available, docs);
  }

  /** The card cover: the merged cover, else the first page's image, else a placeholder. */
  function CardCover(metadata: StoryMetadata): string {
    if metadata.coverImage != "" then metadata.coverImage
    else if |metadata.pages| > 0 then metadata.pages[0].image
    else PlaceholderCover
  }

  function ToCard(slug: string, metadata: StoryMetadata): StoryCardData {
    StoryCardData(slug, metadata.title, metadata.description, CardCover(metadata))
  }

  /** `card` is the card built from the `j`-th available slug. */
  predicate CardFrom(cdnBase: string, available: seq<string>, docs: seq<StoryDocuments>, j: nat, card: StoryCardData)
    requires |docs| == |available|
  {
    && j < |available|
    && var metadata := LoadStoryMetadata(cdnBase, available[j], docs[j]);
    && metadata.Some?
    && card == ToCard(available[j], metadata.value)
  }

  /** The merged cover is never empty, so a card's cover is always the resolved `cover.webp`. */
  lemma CardCoverIsFixed(cdnBase: string, available: seq<string>, docs: seq<StoryDocuments>, j: nat, card: StoryCardData)
    requires |docs| == |available|
    requires CardFrom(cdnBase, available, docs, j, card)
    ensures card.coverImage == ConstructImageUrl(available[j], CoverFileName)
  {
    var metadata := LoadStoryMetadata(cdnBase, available[j], docs[j]).value;
    assert |"http://"| <= |metadata.coverImage| || |"https://"| <= |metadata.coverImage|;
  }

  /** One iteration: the `i`-th available slug contributes when its merge succeeds. */
  method CollectCardsStep(cdnBase: string, available: seq<string>, docs: seq<StoryDocuments>, i: nat,
                  cards: seq<StoryCardData>, kept: seq<nat>)
    returns (cards': seq<StoryCardData>, kept': seq<nat>)
    requires |docs| == |available| && i < |available|
    requires |cards| == |kept|
    requires forall k :: 0 <= k < |cards| ==> CardFrom(cdnBase, available, docs, kept[k], cards[k])
    ensures kept' == kept + (if LoadStoryMetadata(cdnBase, available[i], docs[i]).Some? then [i] else [])
    ensures |cards'| == |kept'|
    ensures forall k :: 0 <= k < |cards'| ==> CardFrom(cdnBase, available, docs, kept'[k], cards'[k])
  {
    var slug := available[i];
    var metadata := LoadStoryMetadata(cdnBase, slug, docs[i]);
    cards', kept' := cards, kept;
    if metadata.Some? {
      assert CardFrom(cdnBase, available, docs, i, ToCard(slug, metadata.value));
      cards' := cards + [ToCard(slug, metadata.value)];
      kept' := kept + [i];
    } else {
      assert kept + [] == kept;
    }
  }

  /** The `for ... of` loop of `getStoriesMetadata` over the available slugs. */
  method CollectCards(cdnBase: string, available: seq<string>, docs: seq<StoryDocuments>) returns (cards: seq<StoryCardData>)
    requires |docs| == |available|
    ensures var merged := KeptIndices(MergeSucceeds(cdnBase, available, docs));
      && |cards| == |merged|
      && forall k :: 0 <= k < |cards| ==> CardFrom(cdnBase, available, docs, merged[k], cards[k])
  {
    ghost var ok := MergeSucceeds(cdnBase, available, docs);
    var kept: seq<nat> := [];
    cards := [];
    var i := 0;
    while i < |available|
      invariant 0 <= i <= |available|
      invariant kept == KeptIndices(ok[..i])
      invariant |cards| == |kept|
      invariant forall k :: 0 <= k < |cards| ==> CardFrom(cdnBase, available, docs, kept[k], cards[k])
    {
      KeptIndicesSnoc(ok[..i], ok[i]);
      assert ok[..i + 1] == ok[..i] + [ok[i]];
      cards, kept := CollectCardsStep(cdnBase, available, docs, i, cards, kept);
      i := i + 1;
    }
    assert ok[..|available|] == ok;
  }

  /**
   `getStoriesMetadata`: one card per available slug that merges, in manifest
   order, each with the resolved `cover.webp` as its cover.
   */
  method GetStoriesMetadata(cdnBase: string, manifest: ManifestResponse, probes: seq<bool>, docs: seq<StoryDocuments>)
    returns (cards: seq<StoryCardData>)
    requires |probes| == |LoadStorySlugs(manifest)|
    requires |docs| == |AvailableSlugs(LoadStorySlugs(manifest), probes)|
    ensures
      var available := AvailableSlugs(LoadStorySlugs(manifest), probes);
      var merged := KeptIndices(MergeSucceeds(cdnBase, available, docs));
      && |cards| == |merged|
      && forall k :: 0 <= k < |cards| ==>
           && cards[k].slug == available[merged[k]]
           && cards[k].coverImage == ConstructImageUrl(available[merged[k]], CoverFileName)
           && CardFrom(cdnBase, available, docs, merged[k], cards[k])
  {
    var slugs := LoadStorySlugs(manifest);
    var available := AvailableSlugs(slugs, probes);
    if |slugs| == 0 {
      return [];
    }
    cards := CollectCards(cdnBase, available, docs);
    ghost var merged := KeptIndices(MergeSucceeds(cdnBase, available, docs));
    forall k | 0 <= k < |cards|
      ensures cards[k].coverImage == ConstructImageUrl(available[merged[k]], CoverFileName)
    {
      CardCoverIsFixed(cdnBase, available, docs, merged[k], cards[k]);
    }
  }

  /** `slugs.indexOf(slug)`: the first position of `slug`, or -1. */
  function IndexOf(slugs: seq<string>, slug: string): (i: int)
    ensures -1 <= i < |slugs|
    ensures i == -1 <==> slug !in slugs
    ensures i >= 0 ==> slugs[i] == slug && slug !in slugs[..i]
  {
    if |slugs| == 0 then -1
    else if slugs[0] == slug then 0
    else
      var j := IndexOf(slugs[1..], slug);
      if j == -1 then
        assert slugs == [slugs[0]] + slugs[1..];
        -1
      else
        assert slugs[..j + 1] == [slugs[0]] + slugs[1..][..j];
        j + 1
  }

  /**
   `loadStory`: no story when the probe fails or the merge fails; otherwise
   the id is the slug's first position in the manifest, or 0 when the
   manifest (fetched afresh) does not list it.
   */
  function LoadStory(cdnBase: string, slug: string, available: bool, docs: StoryDocuments, manifest: ManifestResponse)
    : (r: Option<StoryData>)
    ensures r.Some? <==> available && Mergeable(docs)
    ensures r.Some? ==>
      var slugs := LoadStorySlugs(manifest);
      && r.value == ToStoryData(r.value.id, slug, LoadStoryMetadata(cdnBase, slug, docs).value)
      && (slug in slugs ==> 0 <= r.value.id < |slugs| && slugs[r.value.id] == slug && slug !in slugs[..r.value.id])
      && (slug !in slugs ==> r.value.id == 0)
  {
    if !available then None
    else
      match LoadStoryMetadata(cdnBase, slug, docs)
      case None => None
      case Some(metadata) =>
        var id := IndexOf(LoadStorySlugs(manifest), slug);
        Some(ToStoryData(if id >= 0 then id else 0, slug, metadata))
  }
}
