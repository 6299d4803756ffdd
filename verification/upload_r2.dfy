/**
 The decisions of the image upload script (scripts/cloudflare/upload-to-r2.js):
 content type by file extension, command-line flags, configuration
 validation, the URL rewrite of a story document, the skip/upload choice per
 image and the summary counters of the main loop. The environment, the
 directory listings, the bucket and the story documents are inputs; the S3
 client, file writes and console output are not modelled, and
 `process.exit(1)` is an outcome value.
 */
module UploadToR2 {
  import opened Common

  // ---------------------------------------------------------------------------
  // content types

  /** The four content types the script sends. */
  datatype MimeType = ImageWebp | ImageJpeg | ImagePng | OctetStream {
    function Name(): string {
      match this
      case ImageWebp => "image/webp"
      case ImageJpeg => "image/jpeg"
      case ImagePng => "image/png"
      case OctetStream => "application/octet-stream"
    }
  }

  /** The content type chosen in `uploadToR2`, with its case-sensitive suffix tests. */
  function ContentTypeAsWritten(key: string): (contentType: MimeType)
    ensures contentType == OctetStream <==> !HasImageSuffix(key)
  {
    if EndsWith(key, ".webp") then ImageWebp
    else if EndsWith(key, ".jpg") || EndsWith(key, ".jpeg") then ImageJpeg
    else if EndsWith(key, ".png") then ImagePng
    else OctetStream
  }

  /** One of the extensions `getImageFiles` looks for: ".webp", ".jpg", ".jpeg", ".png". */
  predicate HasImageSuffix(s: string) {
    EndsWith(s, ".webp") || EndsWith(s, ".jpg") || EndsWith(s, ".jpeg") || EndsWith(s, ".png")
  }

  /** The default `extensions` argument of `getImageFiles`. */
  const ImageExtensions := [".webp", ".jpg", ".jpeg", ".png"]

  /**
   `getImageFiles`' test, `extensions.some(ext => item.toLowerCase().endsWith(ext))`:
   the lower-cased name has one of the four image suffixes.
   */
  predicate IsImageFile(name: string)
    ensures IsImageFile(name) <==> HasImageSuffix(ToLower(name))
  {
    var lower := ToLower(name);
    assert ImageExtensions[0] == ".webp" && ImageExtensions[1] == ".jpg";
    assert ImageExtensions[2] == ".jpeg" && ImageExtensions[3] == ".png";
    exists i :: 0 <= i < |ImageExtensions| && EndsWith(lower, ImageExtensions[i])
  }

  /**
   The content type with the suffix tests made on the lower-cased key, so
   that every file `getImageFiles` accepts gets an image type.
   */
  function ContentType(key: string): (contentType: MimeType)
    ensures contentType != OctetStream <==> IsImageFile(key)
  {
    ContentTypeAsWritten(ToLower(key))
  }

  /** Lower-casing a lower-case text changes nothing. */
  lemma ToLowerIdempotent(s: string)
    ensures ToLower(ToLower(s)) == ToLower(s)
  {
  }

  /** The corrected choice depends only on the lower-cased key and agrees with the original on lower-case keys. */
  lemma ContentTypeIgnoresCase(key: string)
    ensures ContentType(key) == ContentType(ToLower(key))
    ensures ToLower(key) == key ==> ContentType(key) == ContentTypeAsWritten(key)
  {
    ToLowerIdempotent(key);
  }

  /** A ".webp" key is never taken for one of the other types, nor a ".jpeg" key for a ".png". */
  lemma SuffixesExclusive(key: string)
    ensures EndsWith(key, ".webp") ==> !EndsWith(key, ".jpg") && !EndsWith(key, ".jpeg") && !EndsWith(key, ".png")
    ensures EndsWith(key, ".jpg") || EndsWith(key, ".jpeg") ==> !EndsWith(key, ".png")
  {
    if EndsWith(key, ".webp") {
      assert key[|key| - 1] == 'p' && key[|key| - 2] == 'b';
    }
    if EndsWith(key, ".jpg") || EndsWith(key, ".jpeg") {
      assert key[|key| - 1] == 'g' && key[|key| - 2] != 'n';
    }
  }

  /** Each suffix gets its own type, as written: the type names exactly one suffix class. */
  lemma ContentTypeBySuffix(key: string)
    ensures ContentTypeAsWritten(key) == ImageWebp <==> EndsWith(key, ".webp")
    ensures ContentTypeAsWritten(key) == ImageJpeg <==> EndsWith(key, ".jpg") || EndsWith(key, ".jpeg")
    ensures ContentTypeAsWritten(key) == ImagePng <==> EndsWith(key, ".png")
    ensures ContentTypeAsWritten(key) == OctetStream <==> !HasImageSuffix(key)
  {
    SuffixesExclusive(key);
  }

  /**
   As written, an image that discovery accepts can be uploaded as an
   untyped blob: "a.WEBP" is found by the case-insensitive test but matches
   none of the case-sensitive suffix tests.
   */
  lemma UpperCaseImageIsOctetStream(slug: string)
    ensures IsImageFile("a.WEBP")
    ensures ContentTypeAsWritten("a.WEBP") == OctetStream
    ensures ContentType("a.WEBP") == ImageWebp
    ensures UploadImage(false, ImageKey(slug, "a.WEBP"), NotFound, true) == Uploaded(OctetStream)
  {
    assert IsImageFile("a.WEBP") && ContentType("a.WEBP") == ImageWebp by {
      assert ToLower("a.WEBP") == "a.webp";
      assert EndsWith("a.webp", ".webp");
    }
    EndsInCapitalP("a.WEBP");
    var key := ImageKey(slug, "a.WEBP");
    assert key[|key| - 1] == 'P';
    EndsInCapitalP(key);
  }

  /** No image suffix ends in a capital letter. */
  lemma EndsInCapitalP(key: string)
    requires |key| > 0 && key[|key| - 1] == 'P'
    ensures !HasImageSuffix(key)
  {
  }

  // ---------------------------------------------------------------------------
  // parseArgs

  datatype CliFlags = CliFlags(force: bool, story: Option<string>)

  const StoryOption := "--story="

  /** `arg.split('=')[1]` for an argument that starts with "--story=". */
  function StoryValue(arg: string): (value: string)
    requires StartsWith(arg, StoryOption)
    ensures '=' !in value
  {
    var parts := Split(arg, '=');
    if |parts| >= 2 then parts[1] else ""
  }

  /** The value is the text between the first and the second `=`. */
  lemma StoryValueBetweenEquals(value: string)
    ensures StartsWith(StoryOption + value, StoryOption)
    ensures StoryValue(StoryOption + value) == Split(value, '=')[0]
  {
    assert StoryOption + value == "--story" + ['='] + value;
    assert '=' !in "--story";
    SplitAtFirst("--story", '=', value);
  }

  /**
   One iteration of the loop in `parseArgs`: "--force" turns force on, a
   "--story=" argument replaces the story, and anything else is ignored.
   */
  function ApplyArg(flags: CliFlags, arg: string): (next: CliFlags)
    ensures next.force <==> flags.force || arg == "--force"
    ensures StartsWith(arg, StoryOption) ==> next.story == Some(StoryValue(arg))
    ensures !StartsWith(arg, StoryOption) ==> next.story == flags.story
  {
    assert StartsWith(arg, StoryOption) ==> arg != "--force" by {
      if StartsWith(arg, StoryOption) { assert arg[2] == 's'; }
    }
    if arg == "--force" then flags.(force := true)
    else if StartsWith(arg, StoryOption) then flags.(story := Some(StoryValue(arg)))
    else flags
  }

  /**
   `parseArgs` over `process.argv.slice(2)`, starting from no force and no
   story: force is on exactly when some argument is exactly "--force", and
   without a "--story=" argument no story is selected.
   */
  function ParseArgs(args: seq<string>): (flags: CliFlags)
    ensures flags.force <==> "--force" in args
    ensures (forall i :: 0 <= i < |args| ==> !StartsWith(args[i], StoryOption)) ==> flags.story.None?
  {
    if |args| == 0 then CliFlags(false, None)
    else
      var init := args[..|args| - 1];
      assert args == init + [args[|args| - 1]];
      ApplyArg(ParseArgs(init), args[|args| - 1])
  }

  /** The last "--story=" argument decides the story; other arguments are ignored. */
  lemma {:induction false} LastStoryWins(args: seq<string>, k: nat)
    requires k < |args| && StartsWith(args[k], StoryOption)
    requires forall i :: k < i < |args| ==> !StartsWith(args[i], StoryOption)
    ensures ParseArgs(args).story == Some(StoryValue(args[k]))
  {
    if k < |args| - 1 {
      LastStoryWins(args[..|args| - 1], k);
    }
  }

  // ---------------------------------------------------------------------------
  // validateConfig

  /** The five environment variables; `None` when unset. */
  datatype R2Config = R2Config(
    accountId: Option<string>, accessKeyId: Option<string>, secretAccessKey: Option<string>,
    bucketName: Option<string>, publicUrl: Option<string>)

  /** JavaScript truthiness of an environment value: set and non-empty. */
  predicate Truthy(v: Option<string>) {
    v.Some? && v.value != ""
  }

  const VariableNames := [
    "CLOUDFLARE_ACCOUNT_ID", "CLOUDFLARE_R2_ACCESS_KEY_ID", "CLOUDFLARE_R2_SECRET_ACCESS_KEY",
    "R2_BUCKET_NAME", "R2_PUBLIC_URL"]

  /** Which of the five variables are missing, in the order they are checked. */
  function UnsetFlags(c: R2Config): seq<bool> {
    [!Truthy(c.accountId), !Truthy(c.accessKeyId), !Truthy(c.secretAccessKey),
     !Truthy(c.bucketName), !Truthy(c.publicUrl)]
  }

  /** `missing` lists `names[j]` for each flagged `j < i`, in order. */
  predicate Selected(missing: seq<string>, names: seq<string>, flags: seq<bool>, i: nat)
    requires i <= |flags| == |names|
  {
    var ix := KeptIndices(flags[..i]);
    |missing| == |ix| && forall k :: 0 <= k < |ix| ==> missing[k] == names[ix[k]]
  }

  /** One `if (...) missing.push(name)` step extends the selection by position `i`. */
  lemma SelectionStep(missing: seq<string>, names: seq<string>, flags: seq<bool>, i: nat)
    requires i < |flags| == |names|
    requires Selected(missing, names, flags, i)
    ensures Selected(if flags[i] then missing + [names[i]] else missing, names, flags, i + 1)
  {
    assert flags[..i + 1] == flags[..i] + [flags[i]];
    KeptIndicesSnoc(flags[..i], flags[i]);
  }

  /** The flagged names, in order: the effect of a run of `if (flag) missing.push(name)`. */
  function SelectFlagged(names: seq<string>, flags: seq<bool>): (m: seq<string>)
    requires |names| == |flags|
    ensures Selected(m, names, flags, |flags|)
    decreases |flags|
  {
    if |flags| == 0 then
      assert flags[..0] == [];
      []
    else
      var n := |flags| - 1;
      var m := SelectFlagged(names[..n], flags[..n]);
      assert flags[..n][..n] == flags[..n];
      SelectionStep(m, names, flags, n);
      if flags[n] then m + [names[n]] else m
  }

  /**
   The `missing` list of `validateConfig`: the five checks in their fixed
   order, each adding its variable's name when the value is unset.
   */
  function MissingVariables(c: R2Config): (missing: seq<string>)
    ensures var ix := KeptIndices(UnsetFlags(c));
      |missing| == |ix| && forall k :: 0 <= k < |ix| ==> missing[k] == VariableNames[ix[k]]
  {
    var f := UnsetFlags(c);
    assert f[..5] == f;
    SelectFlagged(VariableNames, f)
  }

  /** Every variable is set to a non-empty value. */
  predicate AllSet(c: R2Config) {
    Truthy(c.accountId) && Truthy(c.accessKeyId) && Truthy(c.secretAccessKey)
    && Truthy(c.bucketName) && Truthy(c.publicUrl)
  }

  lemma AllSetIffNoFlag(c: R2Config)
    ensures AllSet(c) <==> forall i :: 0 <= i < 5 ==> !UnsetFlags(c)[i]
  {
    var f := UnsetFlags(c);
    assert f[0] == !Truthy(c.accountId) && f[1] == !Truthy(c.accessKeyId) && f[2] == !Truthy(c.secretAccessKey);
    assert f[3] == !Truthy(c.bucketName) && f[4] == !Truthy(c.publicUrl);
    if AllSet(c) {
      forall i | 0 <= i < 5 ensures !f[i] {
        assert i == 0 || i == 1 || i == 2 || i == 3 || i == 4;
      }
    }
  }

  datatype ConfigCheck = ConfigOk | ExitMissing(missing: seq<string>)

  /** `validateConfig`: the process exits, listing the missing names, exactly when one is unset. */
  function ValidateConfig(c: R2Config): (r: ConfigCheck)
    ensures r.ConfigOk? <==> AllSet(c)
    ensures r.ExitMissing? ==> r.missing == MissingVariables(c) && |r.missing| > 0
  {
    var missing := MissingVariables(c);
    KeptIndicesEmpty(UnsetFlags(c));
    AllSetIffNoFlag(c);
    if |missing| > 0 then ExitMissing(missing) else ConfigOk
  }

  // ---------------------------------------------------------------------------
  // updateStoryJson

  /** A page object: its `image` and its other fields, which the rewrite never touches. */
  datatype JsonPage = JsonPage(image: Option<string>, otherFields: map<string, string>)

  /** The `pages` member: an array, some other value, or absent. */
  datatype PagesField = PageList(items: seq<JsonPage>) | NotAList | NoPages

  /** A story document as far as the rewrite is concerned. */
  datatype StoryJson = StoryJson(coverImage: Option<string>, pages: PagesField, otherFields: map<string, string>)

  /** A value the rewrite prefixes: a non-empty path that does not start with "http". */
  predicate NeedsPrefix(v: Option<string>) {
    v.Some? && v.value != "" && !StartsWith(v.value, "http")
  }

  /** `${config.publicUrl}/${slug}/${path}`. */
  function PublicImageUrl(publicUrl: string, slug: string, path: string): string {
    publicUrl + "/" + slug + "/" + path
  }

  function RewriteUrl(publicUrl: string, slug: string, v: Option<string>): Option<string> {
    if NeedsPrefix(v) then Some(PublicImageUrl(publicUrl, slug, v.value)) else v
  }

  /** The `map` callback: `{...page, image: ...}` or the page itself. */
  function RewritePage(publicUrl: string, slug: string, page: JsonPage): (r: JsonPage)
    ensures r.otherFields == page.otherFields
    ensures NeedsPrefix(page.image) ==> r.image == Some(PublicImageUrl(publicUrl, slug, page.image.value))
    ensures !NeedsPrefix(page.image) ==> r == page
  {
    if NeedsPrefix(page.image) then page.(image := Some(PublicImageUrl(publicUrl, slug, page.image.value))) else page
  }

  /**
   The two rewrites of `updateStoryJson`: the cover image, then every page of
   a `pages` array; a missing or non-array `pages` is left alone.
   */
  function RewriteStory(publicUrl: string, slug: string, story: StoryJson): (r: StoryJson)
    ensures r.otherFields == story.otherFields
    ensures r.coverImage == RewriteUrl(publicUrl, slug, story.coverImage)
    ensures r.pages.PageList? <==> story.pages.PageList?
    ensures !story.pages.PageList? ==> r.pages == story.pages
    ensures story.pages.PageList? ==>
      && |r.pages.items| == |story.pages.items|
      && forall i :: 0 <= i < |story.pages.items| ==>
           r.pages.items[i] == RewritePage(publicUrl, slug, story.pages.items[i])
  {
    var cover := RewriteUrl(publicUrl, slug, story.coverImage);
    var pages :=
      match story.pages
      case PageList(items) =>
        PageList(seq(|items|, i requires 0 <= i < |items| => RewritePage(publicUrl, slug, items[i])))
      case other => other;
    story.(coverImage := cover, pages := pages)
  }

  /** A rewritten value starts with the public URL, so with "http" when the URL does. */
  lemma RewrittenUrlIsFinal(publicUrl: string, slug: string, v: Option<string>)
    requires StartsWith(publicUrl, "http")
    ensures RewriteUrl(publicUrl, slug, RewriteUrl(publicUrl, slug, v)) == RewriteUrl(publicUrl, slug, v)
  {
    if NeedsPrefix(v) {
      StartsWithAppend(publicUrl, "/" + slug + "/" + v.value, "http");
      assert PublicImageUrl(publicUrl, slug, v.value) == publicUrl + ("/" + slug + "/" + v.value);
    }
  }

  /**
   With an "http" public URL, running the rewrite on its own output changes
   nothing: a second run of the script leaves the document as it is.
   */
  lemma RewriteIdempotent(publicUrl: string, slug: string, story: StoryJson)
    requires StartsWith(publicUrl, "http")
    ensures RewriteStory(publicUrl, slug, RewriteStory(publicUrl, slug, story)) == RewriteStory(publicUrl, slug, story)
  {
    var once := RewriteStory(publicUrl, slug, story);
    var twice := RewriteStory(publicUrl, slug, once);
    RewrittenUrlIsFinal(publicUrl, slug, story.coverImage);
    if story.pages.PageList? {
      var items := story.pages.items;
      forall i | 0 <= i < |items|
        ensures twice.pages.items[i] == once.pages.items[i]
      {
        RewrittenUrlIsFinal(publicUrl, slug, items[i].image);
      }
      assert twice.pages.items == once.pages.items;
    }
  }

  /** Any value starting with "http", even "httpx:...", counts as already public. */
  lemma HttpPrefixIsEnough(publicUrl: string, slug: string, rest: string)
    ensures RewriteUrl(publicUrl, slug, Some("http" + rest)) == Some("http" + rest)
  {
    assert ("http" + rest)[..4] == "http";
  }

  /** What `updateStoryJson` did: nothing to do, a parse failure, or a rewritten file with its backup. */
  datatype JsonUpdate = NoStoryJson | ParseFailed(file: string) | Updated(file: string, backup: string, content: StoryJson)

  /**
   `updateStoryJson`: the first ".json" entry of the directory listing is
   parsed (`document`, `None` when `JSON.parse` throws), backed up and
   rewritten. The function returns `true` exactly for `Updated`.
   */
  function UpdateStoryJson(publicUrl: string, slug: string, entries: seq<string>, document: Option<StoryJson>)
    : (r: JsonUpdate)
    ensures var jsonFiles := Filter(entries, IsJsonFile);
      && (r.NoStoryJson? <==> forall i :: 0 <= i < |entries| ==> !EndsWith(entries[i], ".json"))
      && (r.Updated? <==> |jsonFiles| > 0 && document.Some?)
      && (r.Updated? ==> r.file == jsonFiles[0] && r.backup == r.file + ".backup"
                         && r.content == RewriteStory(publicUrl, slug, document.value))
  {
    var jsonFiles := Filter(entries, IsJsonFile);
    FilterIsKept(entries, IsJsonFile);
    KeptIndicesEmpty(Flags(entries, IsJsonFile));
    if |jsonFiles| == 0 then NoStoryJson
    else
      var jsonFile := jsonFiles[0];
      match document
      case None => ParseFailed(jsonFile)
      case Some(story) => Updated(jsonFile, jsonFile + ".backup", RewriteStory(publicUrl, slug, story))
  }

  predicate IsJsonFile(name: string) {
    EndsWith(name, ".json")
  }

  // ---------------------------------------------------------------------------
  // the upload loop of main

  /** `HeadObjectCommand`: the key exists, a NotFound error, or any other error (rethrown). */
  datatype HeadResult = Exists | NotFound | HeadFailed

  /** What happened to one image: skipped, uploaded with a content type, or an error caught and logged. */
  datatype ImageOutcome = Skipped | Uploaded(contentType: MimeType) | Failed

  /**
   The body of the inner loop for one key. Without `--force` the bucket is
   asked first and an existing key is skipped; with it no question is asked.
   `putOk` is whether `PutObjectCommand` succeeds. The content type is the
   script's own case-sensitive choice.
   */
  function UploadImage(force: bool, key: string, head: HeadResult, putOk: bool): (r: ImageOutcome)
    ensures r.Skipped? <==> !force && head == Exists
    ensures r.Uploaded? <==> putOk && (force || head == NotFound)
    ensures r.Uploaded? ==> r.contentType == ContentTypeAsWritten(key)
  {
    var put := if putOk then Uploaded(ContentTypeAsWritten(key)) else Failed;
    if !force then
      match head
      case Exists => Skipped
      case NotFound => put
      case HeadFailed => Failed
    else put
  }

  /**
   The run uploads a key with the type the corrected choice gives it
   whenever the key is already lower case.
   */
  lemma LowerCaseKeysTypedCorrectly(force: bool, key: string, head: HeadResult, putOk: bool)
    requires ToLower(key) == key
    ensures UploadImage(force, key, head, putOk).Uploaded? ==>
      UploadImage(force, key, head, putOk).contentType == ContentType(key)
  {
  }

  /** A story directory: its slug, its regular files and the parse of its first JSON file. */
  datatype StoryDir = StoryDir(slug: string, entries: seq<string>, document: Option<StoryJson>)

  /** What `main` did for one story; `json` is `None` when there were no images. */
  datatype StoryReport = StoryReport(images: seq<string>, outcomes: seq<ImageOutcome>, json: Option<JsonUpdate>)

  /** `${story.slug}/${image.name}`. */
  function ImageKey(slug: string, name: string): string {
    slug + "/" + name
  }

  /**
   One iteration of the outer loop: find the images, handle each, then
   rewrite the story JSON. A story without images is passed over. The
   bucket's answers are the functions `head` and `putOk` of the key.
   */
  function ProcessStory(force: bool, publicUrl: string, dir: StoryDir,
                        head: string -> HeadResult, putOk: string -> bool): (r: StoryReport)
    ensures r.images == Filter(dir.entries, IsImageFile)
    ensures |r.outcomes| == |r.images|
    ensures forall i :: 0 <= i < |r.images| ==>
      var key := ImageKey(dir.slug, r.images[i]);
      r.outcomes[i] == UploadImage(force, key, head(key), putOk(key))
    ensures r.json.None? <==> |r.images| == 0
    ensures r.json.Some? ==> r.json.value == UpdateStoryJson(publicUrl, dir.slug, dir.entries, dir.document)
  {
    var images := Filter(dir.entries, IsImageFile);
    if |images| == 0 then StoryReport(images, [], None)
    else
      var outcomes := seq(|images|, i requires 0 <= i < |images| =>
        var key := ImageKey(dir.slug, images[i]);
        UploadImage(force, key, head(key), putOk(key)));
      StoryReport(images, outcomes, Some(UpdateStoryJson(publicUrl, dir.slug, dir.entries, dir.document)))
  }

  /** The four counters printed at the end. */
  datatype Summary = Summary(totalImages: nat, uploaded: nat, skipped: nat, jsonUpdated: nat)

  function CountUploaded(outcomes: seq<ImageOutcome>): nat {
    if |outcomes| == 0 then 0
    else CountUploaded(outcomes[..|outcomes| - 1]) + (if outcomes[|outcomes| - 1].Uploaded? then 1 else 0)
  }

  function CountSkipped(outcomes: seq<ImageOutcome>): nat {
    if |outcomes| == 0 then 0
    else CountSkipped(outcomes[..|outcomes| - 1]) + (if outcomes[|outcomes| - 1].Skipped? then 1 else 0)
  }

  /** An image is uploaded or skipped, never both, and may be neither. */
  lemma {:induction false} CountsBounded(outcomes: seq<ImageOutcome>)
    ensures CountUploaded(outcomes) + CountSkipped(outcomes) <= |outcomes|
  {
    if |outcomes| > 0 {
      CountsBounded(outcomes[..|outcomes| - 1]);
    }
  }

  /**
   The counters after the given reports, accumulated in order. For reports
   as `ProcessStory` makes them, uploads and skips together never exceed the
   images found, and only stories that had images can have their JSON
   rewritten.
   */
  function Tally(reports: seq<StoryReport>): (t: Summary)
    ensures (forall i :: 0 <= i < |reports| ==> WellFormed(reports[i])) ==>
      t.uploaded + t.skipped <= t.totalImages && t.jsonUpdated <= StoriesWithImages(reports)
  {
    if |reports| == 0 then Summary(0, 0, 0, 0)
    else
      var s := Tally(reports[..|reports| - 1]);
      var r := reports[|reports| - 1];
      CountsBounded(r.outcomes);
      Summary(
        s.totalImages + |r.images|,
        s.uploaded + CountUploaded(r.outcomes),
        s.skipped + CountSkipped(r.outcomes),
        s.jsonUpdated + (if r.json.Some? && r.json.value.Updated? then 1 else 0))
  }

  /** Stories that had at least one image. */
  function StoriesWithImages(reports: seq<StoryReport>): nat {
    if |reports| == 0 then 0
    else StoriesWithImages(reports[..|reports| - 1]) + (if |reports[|reports| - 1].images| > 0 then 1 else 0)
  }

  /** A report as `ProcessStory` produces it. */
  predicate WellFormed(r: StoryReport) {
    |r.outcomes| == |r.images| && (r.json.None? <==> |r.images| == 0)
  }

  /** How the script ends: exit for a missing variable or an unknown story, or the summary. */
  datatype RunOutcome =
    | ExitConfig(missing: seq<string>)
    | ExitStoryNotFound(story: string)
    | Completed(processed: seq<StoryDir>, reports: seq<StoryReport>, summary: Summary)

  /** The filter callback `s => s.slug === flags.story`. */
  function HasSlug(slug: string): StoryDir -> bool {
    (d: StoryDir) => d.slug == slug
  }

  /**
   `stories.filter(s => s.slug === flags.story)` when a story is selected:
   exactly the directories with that slug, in listing order; every
   directory otherwise.
   */
  function SelectStories(dirs: seq<StoryDir>, story: Option<string>): (selected: seq<StoryDir>)
    ensures !Truthy(story) ==> selected == dirs
    ensures Truthy(story) ==>
      var ix := KeptIndices(Flags(dirs, HasSlug(story.value)));
      && |selected| == |ix|
      && (forall k :: 0 <= k < |ix| ==> selected[k] == dirs[ix[k]])
      && (forall k :: 0 <= k < |selected| ==> selected[k].slug == story.value)
  {
    if Truthy(story) then
      FilterIsKept(dirs, HasSlug(story.value));
      Filter(dirs, HasSlug(story.value))
    else dirs
  }

  /**
   `main`: validate the configuration, parse the flags, select the stories
   (`dirs` is what `getStoryDirectories` found), process each in order and
   count.
   */
  function UploadAll(c: R2Config, args: seq<string>, dirs: seq<StoryDir>,
                     head: string -> HeadResult, putOk: string -> bool): (r: RunOutcome)
    ensures r.ExitConfig? <==> !AllSet(c)
    ensures r.ExitStoryNotFound? <==>
      AllSet(c) && Truthy(ParseArgs(args).story) && |SelectStories(dirs, ParseArgs(args).story)| == 0
    ensures r.ExitStoryNotFound? ==> r.story == ParseArgs(args).story.value
    ensures r.Completed? ==>
      && r.processed == SelectStories(dirs, ParseArgs(args).story)
      && |r.reports| == |r.processed|
      && (forall i :: 0 <= i < |r.processed| ==>
            r.reports[i] == ProcessStory(ParseArgs(args).force, c.publicUrl.GetOr(""), r.processed[i], head, putOk))
      && r.summary == Tally(r.reports)
  {
    match ValidateConfig(c)
    case ExitMissing(missing) => ExitConfig(missing)
    case ConfigOk =>
      var flags := ParseArgs(args);
      var stories := SelectStories(dirs, flags.story);
      if Truthy(flags.story) && |stories| == 0 then ExitStoryNotFound(flags.story.value)
      else
        var reports := seq(|stories|, i requires 0 <= i < |stories| =>
          ProcessStory(flags.force, c.publicUrl.GetOr(""), stories[i], head, putOk));
        Completed(stories, reports, Tally(reports))
  }

  /**
   A completed run never counts more uploads and skips than images, and with
   a story selected it touches only directories with that slug.
   */
  lemma UploadAllProperties(c: R2Config, args: seq<string>, dirs: seq<StoryDir>,
                            head: string -> HeadResult, putOk: string -> bool)
    ensures var r := UploadAll(c, args, dirs, head, putOk);
      r.Completed? ==>
        && r.summary.uploaded + r.summary.skipped <= r.summary.totalImages
        && r.summary.jsonUpdated <= StoriesWithImages(r.reports)
        && (Truthy(ParseArgs(args).story) ==>
              forall i :: 0 <= i < |r.processed| ==> r.processed[i].slug == ParseArgs(args).story.value)
  {
    var r := UploadAll(c, args, dirs, head, putOk);
    if r.Completed? {
      assert forall i :: 0 <= i < |r.reports| ==> WellFormed(r.reports[i]);
    }
  }
}
