# AI Stories — a Dafny model of the reader's and the asset scripts' pure logic

AI Stories is a picture-book web reader. Stories live on a CDN as a `meta.json` and an `en.json` per story, listed by a `stories.json` manifest. Scripts prepare narration audio and upload images to an R2 bucket. This project models the sequential, deterministic core of that system as pure functions over immutable data, and proves what the code promises:

- **Story loader** (`StoryLoader`, `ParseErrorLine`, `CdnConfig`):
  - image and audio URL construction;
  - the all-or-nothing merge of the two documents of a story;
  - manifest filtering by availability, and id assignment in `loadStories`, `loadStory` and `getStoriesMetadata`;
  - the JSON parse-error line locator;
  - the environment-dependent base URLs.

  Every network result is an input value. A failed fetch of any kind is `None`.
- **Narration audio** (`NarrationAudio`):
  - `parse_audio_mime_type`, with its defaults and last-wins overrides;
  - `convert_to_wav`'s 44-byte RIFF/WAVE header, with a decoder that reads the fields back at their offsets.
- **Narration timeline** (`NarrationTiming`): the title entry and one entry per narrated page, contiguous in time. Speech synthesis is the parameter `synth`, which gives the duration of the audio for a text.
- **R2 upload script** (`UploadToR2`):
  - content-type choice and image discovery;
  - argument parsing and configuration validation;
  - the `story.json` URL rewrite;
  - the skip/upload decision, and the per-story and overall run.

  The S3 client's answers are inputs.
- **UI state machines** (`Typewriter`, `Hero`, `StoryReaderPage`, `App`): each state change is a step function, with invariant lemmas.

Shared helpers (optional values, bytes, string splitting and case folding, decimal parsing and printing, order-preserving filters) are in `Common`.

Facts about the code that the model keeps as they are:

- there is no slash normalisation in URL joins;
- audio comes only from `meta.audioUrl`;
- an empty page list is accepted;
- the reader has only manual paging, with no narration clock or auto-advance;
- `parse_audio_mime_type` always returns integers, the defaults 16 and 24000 when no parameter sets them, although its docstring speaks of `None`.

## Model

| member | source | states |
|---|---|---|
| `CdnConfig.CreateCdnConfig` | src/services/cdnConfig.ts:6-14 | Both URLs are equal. They are "/stories" exactly in development (a `window` whose hostname is "localhost" or "127.0.0.1") and "https://cdn.aistories.online" otherwise. |
| `CdnConfig.DevelopmentIffLoopback` | src/services/cdnConfig.ts:7-12 | The local prefix is chosen iff the hostname is one of the two loopback names. Any other hostname, or no `window`, gets the production origin. |
| `StoryLoader.CdnBaseUrl` | src/services/storyLoader.ts:5-9 | `CDN_BASE_URL` is the "/api/cdn" proxy exactly for the loopback hostnames, and "https://cdn.aistories.online" for every other hostname and when there is no `window`. |
| `StoryLoader.ConstructImageUrl` | src/services/storyLoader.ts:188-198 | An "http://" or "https://" path is returned unchanged. Any other path gives exactly image origin + "/" + slug + "/" + path. The result is always a full URL. |
| `StoryLoader.ConstructAudioUrl` | src/services/storyLoader.ts:201-209 | An undefined or empty path gives undefined. A full URL passes through. Anything else is `CDN_BASE_URL` + "/" + slug + "/" + path. |
| `StoryLoader.ImageUrlIdempotent` | src/services/storyLoader.ts:188-198 | Resolving an already resolved image URL changes nothing. |
| `StoryLoader.RootedPathDoublesSlash` | src/services/storyLoader.ts:195 | There is no slash normalisation: a path starting with "/" yields "//" after the slug. |
| `StoryLoader.ProductionAudioUrlIsFull` | src/services/storyLoader.ts:204-208 | With the production base, every defined audio URL is a full URL. |
| `StoryLoader.ResolvePages` | src/services/storyLoader.ts:225-231 | The page map succeeds iff every page has an image string. It then keeps count and order, copies page, text, chapter and timestamp, and resolves only the image. |
| `StoryLoader.LoadStoryMetadata` | src/services/storyLoader.ts:212-250 | It yields a story iff meta, language data, `en` and a page array with images are all present. Title and description come from meta. The cover is always the resolved "cover.webp". Audio comes only from `meta.audioUrl`. |
| `StoryLoader.MergeIgnoresMetaCover` | src/services/storyLoader.ts:233-234 | Changing `meta.coverImage` never changes the merge result. |
| `StoryLoader.EmptyPagesAccepted` | src/services/storyLoader.ts:225-245 | An empty page array merges into a story with no pages; it is not rejected. |
| `StoryLoader.LoadStorySlugs` | src/services/storyLoader.ts:72-90 | The manifest is the array body of an ok response. A non-ok response, a non-array body or a failed fetch give []. |
| `StoryLoader.AvailableSlugs` | src/services/storyLoader.ts:264-275 | The available slugs are exactly the manifest slugs whose probe succeeded, in manifest order, with duplicates kept. |
| `StoryLoader.CollectStoriesStep` | src/services/storyLoader.ts:281-295 | One loop iteration: the slug adds a story with id `i` iff its merge succeeds, and earlier stories are kept. |
| `StoryLoader.CollectStories` | src/services/storyLoader.ts:280-296 | One story per successful merge, in order. Each story's id is its index among the available slugs, so failed merges leave gaps. |
| `StoryLoader.LoadStories` | src/services/storyLoader.ts:252-299 | `loadStories` over the manifest: the ids are indices into the available-slug list, and slug, title, pages and audio come from that slug's merge. |
| `StoryLoader.CardCoverIsFixed` | src/services/storyLoader.ts:360-364 | A merged cover is never empty, so a card's cover is always the resolved "cover.webp" and the first-page and placeholder fallbacks never fire. |
| `StoryLoader.CollectCardsStep` | src/services/storyLoader.ts:357-374 | One loop iteration: the slug adds a card iff its merge succeeds. |
| `StoryLoader.CollectCards` | src/services/storyLoader.ts:357-375 | One card per successful merge, in manifest order. |
| `StoryLoader.GetStoriesMetadata` | src/services/storyLoader.ts:330-378 | The cards follow the available slugs that merge, in order. Each carries its slug and the resolved "cover.webp". |
| `StoryLoader.IndexOf` | src/services/storyLoader.ts:318 | `indexOf` returns -1 iff the slug is absent; otherwise it returns the first position holding the slug. |
| `StoryLoader.LoadStory` | src/services/storyLoader.ts:301-328 | A story comes back iff the probe succeeded and the merge succeeded. Its id is the first manifest position of the slug, or 0 when the manifest does not list it. |
| `ParseErrorLine.LocateErrorLine` | src/services/storyLoader.ts:159-172 | Reports the first 1-based line whose end offset (earlier lengths plus one per newline, plus its own length) reaches the position, with its first 100 characters. Nothing is reported iff no line reaches it. |
| `ParseErrorLine.LineStartStep` | src/services/storyLoader.ts:170 | Each line starts one newline after the previous one ends. |
| `ParseErrorLine.ErrorLineStartsBeforePosition` | src/services/storyLoader.ts:165-168 | The reported line starts at or before the error position. |
| `ParseErrorLine.LineEndIncreasing` | src/services/storyLoader.ts:164-171 | Line end offsets never decrease, so at most one line can be the first to reach the position. |
| `ParseErrorLine.JoinedLength` | src/services/storyLoader.ts:159 | The lines of a text, rejoined with newlines, are exactly as long as the last line's end offset. |
| `ParseErrorLine.NoLineIffPastEnd` | src/services/storyLoader.ts:159-172 | Nothing is reported iff the position lies past the end of the text. |
| `NarrationAudio.ClassifyParam` | scripts/google_text_to_speech/red-earth-promise-narration.py:193-206 | A piece sets the rate only when, stripped, it starts with "rate=" in any case. It sets the width only when it is not a rate piece and starts with "audio/L". |
| `NarrationAudio.ClassifyParamValue` | scripts/google_text_to_speech/red-earth-promise-narration.py:193-206 | What each piece does, in all three cases. A stripped piece starting with "rate=" in any case sets the rate to `int()` of the text after those five characters, or changes nothing when `int()` rejects it. Otherwise a piece starting with "audio/L" sets the width to `int()` of the text after those seven characters, or changes nothing. Any other piece changes nothing. |
| `NarrationAudio.RatePieceValue` | scripts/google_text_to_speech/red-earth-promise-narration.py:193-201 | Whitespace, "rate=" in any case (such as "RATE=" or "Rate="), then any value: the rate becomes `int()` of the value once `strip()` has removed the whitespace after it. When `int()` rejects that text (letters, a decimal point, nothing at all), the piece changes nothing. |
| `NarrationAudio.SeparatorBeforeRate` | scripts/google_text_to_speech/red-earth-promise-narration.py:193-201 | A separator character U+001C to U+001F between "rate=" and its digits leaves the rate unchanged: `int()` does not skip it, although `strip()` removes the same character from the ends of a piece. |
| `NarrationAudio.WidthPieceValue` | scripts/google_text_to_speech/red-earth-promise-narration.py:193-194 | Whitespace, "audio/L", then any value: the width becomes `int()` of the value once `strip()` has removed the whitespace after it, or nothing changes when `int()` rejects that text. |
| `NarrationAudio.Effects` | scripts/google_text_to_speech/red-earth-promise-narration.py:192-194 | Each `;`-separated piece is classified on its own, in order. |
| `NarrationAudio.NoRateKeepsRate` | scripts/google_text_to_speech/red-earth-promise-narration.py:193-206 | Pieces that set no rate leave the rate as it was. |
| `NarrationAudio.LastRateWins` | scripts/google_text_to_speech/red-earth-promise-narration.py:193-201 | The last piece that sets a rate decides the rate. |
| `NarrationAudio.NoBitsKeepsBits` | scripts/google_text_to_speech/red-earth-promise-narration.py:193-206 | Pieces that set no width leave the width as it was. |
| `NarrationAudio.LastBitsWin` | scripts/google_text_to_speech/red-earth-promise-narration.py:202-206 | The last piece that sets a width decides the width. |
| `NarrationAudio.MimeValuesFromPieces` | scripts/google_text_to_speech/red-earth-promise-narration.py:182-208 | `parse_audio_mime_type` returns rate 24000 or a rate some piece sets, and width 16 or a width some piece sets. No other value can appear. |
| `NarrationAudio.MimeRateIsLastValid` | scripts/google_text_to_speech/red-earth-promise-narration.py:188-208 | The parsed rate is the value of the last valid rate parameter, or 24000 when there is none. |
| `NarrationAudio.MimeBitsIsLastValid` | scripts/google_text_to_speech/red-earth-promise-narration.py:188-208 | The parsed width is the value of the last valid "audio/L" parameter, or 16 when there is none. |
| `NarrationAudio.AfterFirstPast` | scripts/google_text_to_speech/red-earth-promise-narration.py:197 | `split(c, 1)[1]` is everything after the first `c`. |
| `NarrationAudio.RateParamSetsRate` | scripts/google_text_to_speech/red-earth-promise-narration.py:194-198 | "rate=" followed by decimal digits sets the rate to their value. |
| `NarrationAudio.WidthParamSetsBits` | scripts/google_text_to_speech/red-earth-promise-narration.py:202-204 | "audio/L" followed by an integer, negative ones included, sets the width to it. |
| `NarrationAudio.RateParamIsRate` | scripts/google_text_to_speech/red-earth-promise-narration.py:195-197 | A "rate=" parameter takes the rate branch, and its value is everything after the first '='. |
| `NarrationAudio.WidthParamIsWidth` | scripts/google_text_to_speech/red-earth-promise-narration.py:195-203 | An "audio/L" parameter is not a rate parameter, takes the width branch, and its value is everything after the first 'L'. |
| `NarrationAudio.WidthThenRatePieces` | scripts/google_text_to_speech/red-earth-promise-narration.py:192 | "audio/L<w>;rate=<d>" splits into exactly its two parameters. |
| `NarrationAudio.WidthThenRate` | scripts/google_text_to_speech/red-earth-promise-narration.py:182-208 | The service's "audio/L<w>;rate=<d>" shape yields width `w` and rate `d`. |
| `NarrationAudio.WidthOnly` | scripts/google_text_to_speech/red-earth-promise-narration.py:188-208 | "audio/L<w>" alone, for any `w` without ";" that `int()` accepts once its trailing whitespace is stripped, takes that width and keeps the default rate 24000. |
| `NarrationAudio.LittleEndianRoundTrip` | scripts/google_text_to_speech/red-earth-promise-narration.py:159 | Reading back the little-endian `I`/`H` packing of an in-range value gives the value. |
| `NarrationAudio.HeaderFields` | scripts/google_text_to_speech/red-earth-promise-narration.py:146-154 | The computed fields keep the parsed rate and width and the data length. They satisfy the one-channel PCM relations ChunkSize = 36 + n, BlockAlign = width // 8 and ByteRate = rate × BlockAlign. |
| `NarrationAudio.PackHeader` | scripts/google_text_to_speech/red-earth-promise-narration.py:158-173 | The packed header is always 44 bytes. |
| `NarrationAudio.ConvertToWav` | scripts/google_text_to_speech/red-earth-promise-narration.py:136-174 | A file comes back iff every header field fits its 16- or 32-bit slot. The file is then 44 + n bytes with the audio unchanged after byte 44. |
| `NarrationAudio.FourParts` | scripts/google_text_to_speech/red-earth-promise-narration.py:158-174 | The parts of a concatenation sit one after another at their cumulative offsets. |
| `NarrationAudio.PackHeaderLayout` | scripts/google_text_to_speech/red-earth-promise-narration.py:158-173 | The RIFF descriptor is at bytes 0-11, the format sub-chunk at 12-35 and the data sub-chunk header at 36-43. |
| `NarrationAudio.RiffRoundTrip` | scripts/google_text_to_speech/red-earth-promise-narration.py:160-162 | The descriptor reads back as "RIFF", the chunk size and "WAVE". |
| `NarrationAudio.FmtPreambleRoundTrip` | scripts/google_text_to_speech/red-earth-promise-narration.py:163-166 | The format sub-chunk starts "fmt " with size 16, PCM format 1 and one channel. |
| `NarrationAudio.FmtRatesRoundTrip` | scripts/google_text_to_speech/red-earth-promise-narration.py:167-170 | Rate, byte rate, block alignment and width read back at their offsets. |
| `NarrationAudio.DataRoundTrip` | scripts/google_text_to_speech/red-earth-promise-narration.py:171-172 | The data sub-chunk header reads back as "data" and the data size. |
| `NarrationAudio.PackHeaderRoundTrip` | scripts/google_text_to_speech/red-earth-promise-narration.py:156-173 | Decoding a packed header at the WAVE offsets recovers every field. |
| `NarrationAudio.WavHeaderFields` | scripts/google_text_to_speech/red-earth-promise-narration.py:146-174 | The written header declares a chunk size of 36 + n, a 16-byte PCM chunk with one channel, the parsed rate and width, BlockAlign = width // 8, ByteRate = rate × BlockAlign and a data size of n. |
| `NarrationAudio.OversizedDataFails` | scripts/google_text_to_speech/red-earth-promise-narration.py:154-161 | When 36 + n does not fit in 32 bits, packing fails. |
| `NarrationAudio.NegativeWidthParsed` | scripts/google_text_to_speech/red-earth-promise-narration.py:202-206 | "audio/L-<d>" is accepted, with width −d. |
| `NarrationAudio.NegativeWidthFails` | scripts/google_text_to_speech/red-earth-promise-narration.py:151-173 | "audio/L<w>" with any `w` that `int()` reads as negative once its trailing whitespace is stripped is parsed to that negative width, and `convert_to_wav` then fails, because BitsPerSample (and BlockAlign) cannot be packed. |
| `NarrationTiming.Spoken` | scripts/google_text_to_speech/cloud-tts-with-timing.py:149-154 | Only pages with non-empty text are narrated. |
| `NarrationTiming.Pad2` | scripts/google_text_to_speech/cloud-tts-with-timing.py:156 | `{n:02d}` prints at least two characters. |
| `NarrationTiming.Pad2Parses` | scripts/google_text_to_speech/cloud-tts-with-timing.py:156 | `int()` reads the padded text back as the page number, for every integer, negative ones included. Page numbers 0 to 99 take exactly two characters. |
| `NarrationTiming.AssembledSnoc` | scripts/google_text_to_speech/cloud-tts-with-timing.py:156-169 | A narrated page appends one entry, starting at the previous end and lasting as long as its audio, and one file. |
| `NarrationTiming.NarratePage` | scripts/google_text_to_speech/cloud-tts-with-timing.py:149-169 | One loop iteration: a page with text appends its entry and file and advances the time by its duration. A page without text changes nothing. |
| `NarrationTiming.GenerateNarrationWithTiming` | scripts/google_text_to_speech/cloud-tts-with-timing.py:109-171 | The title defaults to "Story". The first entry is the title: page 0, from 0, lasting as long as "title.". Then comes one content entry per narrated page, in input order, with page defaulting to 0. Each entry starts at the previous end and ends at start + duration. There is one file per entry, and the total is the last end. |
| `NarrationTiming.EndIsSum` | scripts/google_text_to_speech/cloud-tts-with-timing.py:145-171 | A contiguous timeline from 0 ends at the sum of its durations. |
| `NarrationTiming.StartsNonDecreasing` | scripts/google_text_to_speech/cloud-tts-with-timing.py:145-169 | With non-negative durations, later entries never start earlier. |
| `NarrationTiming.TimelineProperties` | scripts/google_text_to_speech/cloud-tts-with-timing.py:119-171 | totalDuration is the sum of all durations, the title's included. If synthesis never yields a negative duration, start times never decrease. |
| `NarrationTiming.SpokenIsFilter` | scripts/google_text_to_speech/cloud-tts-with-timing.py:149-154 | The narrated pages are exactly the pages with text, in input order. |
| `NarrationTiming.PageFileNames` | scripts/google_text_to_speech/cloud-tts-with-timing.py:156 | Page 3 is "page-03.wav" and page 12 is "page-12.wav". |
| `UploadToR2.ContentTypeAsWritten` | scripts/cloudflare/upload-to-r2.js:85-88 | The script's own choice is application/octet-stream exactly for keys that end in none of the four image suffixes, compared case-sensitively. |
| `UploadToR2.IsImageFile` | scripts/cloudflare/upload-to-r2.js:99-106 | The `extensions.some(...)` test accepts a name iff its lower-cased form ends in ".webp", ".jpg", ".jpeg" or ".png". |
| `UploadToR2.ContentTypeBySuffix` | scripts/cloudflare/upload-to-r2.js:85-88 | As written: ".webp" gives image/webp, ".jpg"/".jpeg" image/jpeg, ".png" image/png, and anything else application/octet-stream. The suffix test is case-sensitive. |
| `UploadToR2.SuffixesExclusive` | scripts/cloudflare/upload-to-r2.js:85-88 | The four suffixes exclude each other, so the order of the tests does not matter. |
| `UploadToR2.ContentType` | scripts/cloudflare/upload-to-r2.js:85-106 | Corrected choice: an image content type is chosen exactly for the files image discovery accepts. |
| `UploadToR2.ContentTypeIgnoresCase` | scripts/cloudflare/upload-to-r2.js:106 | The corrected choice ignores case. On lower-case keys it agrees with the code as written. |
| `UploadToR2.UpperCaseImageIsOctetStream` | scripts/cloudflare/upload-to-r2.js:85-106 | "a.WEBP" is discovered as an image, and in any story directory it is uploaded as application/octet-stream. The corrected choice gives it image/webp. |
| `UploadToR2.StoryValue` | scripts/cloudflare/upload-to-r2.js:198-199 | `arg.split('=')[1]` never contains "=". |
| `UploadToR2.StoryValueBetweenEquals` | scripts/cloudflare/upload-to-r2.js:198-199 | For "--story=" + v, the story is the part of v before its first "=". |
| `UploadToR2.ApplyArg` | scripts/cloudflare/upload-to-r2.js:195-201 | One argument turns force on iff it is exactly "--force". A "--story=" argument replaces the story. Any other argument leaves the story as it was. |
| `UploadToR2.ParseArgs` | scripts/cloudflare/upload-to-r2.js:188-204 | force is set iff some argument is exactly "--force". Without a "--story=" argument the story stays null. |
| `UploadToR2.LastStoryWins` | scripts/cloudflare/upload-to-r2.js:195-201 | The last "--story=" argument decides the story. Other arguments are ignored. |
| `UploadToR2.SelectionStep` | scripts/cloudflare/upload-to-r2.js:40-44 | Each check appends its variable name iff that variable is unset. |
| `UploadToR2.SelectFlagged` | scripts/cloudflare/upload-to-r2.js:39-44 | The selected names are exactly the flagged ones, in order. |
| `UploadToR2.MissingVariables` | scripts/cloudflare/upload-to-r2.js:39-44 | The missing list is the names of the unset variables, in the fixed order of the checks. |
| `UploadToR2.AllSetIffNoFlag` | scripts/cloudflare/upload-to-r2.js:40-44 | All five variables are set iff no check flags one. |
| `UploadToR2.ValidateConfig` | scripts/cloudflare/upload-to-r2.js:38-52 | The script continues iff all five variables are set. Otherwise it exits, listing the non-empty missing list. |
| `UploadToR2.RewritePage` | scripts/cloudflare/upload-to-r2.js:165-172 | A page whose image is set and does not start with "http" gets publicUrl/slug/image, with other fields kept. Any other page is unchanged. |
| `UploadToR2.RewriteStory` | scripts/cloudflare/upload-to-r2.js:158-174 | The cover is rewritten by the same rule and other fields are kept. An array of pages keeps its length and order, with each page rewritten. Absent or non-array pages are left untouched. |
| `UploadToR2.RewrittenUrlIsFinal` | scripts/cloudflare/upload-to-r2.js:159-160 | A rewritten URL is not rewritten again (given a public URL starting with "http"). |
| `UploadToR2.RewriteIdempotent` | scripts/cloudflare/upload-to-r2.js:158-174 | Rewriting a rewritten story changes nothing. |
| `UploadToR2.HttpPrefixIsEnough` | scripts/cloudflare/upload-to-r2.js:159-166 | Any value starting with "http", even "httpx…", is left unchanged. |
| `UploadToR2.UpdateStoryJson` | scripts/cloudflare/upload-to-r2.js:141-185 | No ".json" entry means nothing is updated. Otherwise the first ".json" entry is backed up to "<file>.backup" and replaced by the rewrite, or the update fails when the document does not parse. |
| `UploadToR2.UploadImage` | scripts/cloudflare/upload-to-r2.js:262-278 | An image is skipped iff force is off and the key exists. It is uploaded iff the put succeeds and either force is on or the key is absent. The upload carries the script's case-sensitive content type of the key. |
| `UploadToR2.LowerCaseKeysTypedCorrectly` | scripts/cloudflare/upload-to-r2.js:83-95 | For a key that is already lower case, the uploaded type is the corrected one. |
| `UploadToR2.ProcessStory` | scripts/cloudflare/upload-to-r2.js:251-283 | The images are the entries image discovery accepts, each with its outcome under key slug/name. The JSON is updated iff there is at least one image. |
| `UploadToR2.CountsBounded` | scripts/cloudflare/upload-to-r2.js:262-278 | uploaded + skipped ≤ images of a story. |
| `UploadToR2.Tally` | scripts/cloudflare/upload-to-r2.js:242-283 | Over a run, uploaded + skipped ≤ total images, and the JSON-update count is at most the number of stories with images. |
| `UploadToR2.SelectStories` | scripts/cloudflare/upload-to-r2.js:232-233 | With a story given, the selection is exactly the directories with that slug, in listing order. Without one, it is every directory. |
| `UploadToR2.UploadAll` | scripts/cloudflare/upload-to-r2.js:207-297 | A configuration error exits first. The not-found exit happens iff the configuration is complete, a story is given and no directory has its slug. Otherwise every selected story is processed in order and tallied. |
| `UploadToR2.UploadAllProperties` | scripts/cloudflare/upload-to-r2.js:232-286 | A completed run processes exactly the selected directories, and its counts respect the bounds. |
| `Common.JoinSplit` | src/services/storyLoader.ts:159 | Joining the lines of a split with newlines gives back the text. |
| `Common.ParseIntToString` | scripts/google_text_to_speech/red-earth-promise-narration.py:198-204 | The decimal parser reads back every printed integer. |
| `Common.NegativeParse` | scripts/google_text_to_speech/red-earth-promise-narration.py:204 | `int()` reads "-" followed by one or more digits as the negated value of the digits. |
| `Common.FilterIsKept` | scripts/google_text_to_speech/cloud-tts-with-timing.py:149-154 | A filter keeps exactly the positions where the test holds, in increasing order. |
| `Typewriter.Step` | src/hooks/useTypewriter.ts:18-44 | An empty word list never changes anything. A step keeps the text a prefix of the current word and the index in range. The index changes only when deletion has finished, and then to (index + 1) mod n. |
| `Typewriter.EmptyWordsNeverChange` | src/hooks/useTypewriter.ts:19 | With no words, any number of steps leaves the state unchanged. |
| `Typewriter.StepCases` | src/hooks/useTypewriter.ts:24-40 | A finished word starts deletion with the same text. A finished deletion turns deletion off and advances the index cyclically. Otherwise deletion drops the last character, and typing extends the text to the next prefix of the word. |
| `Typewriter.TypingPhase` | src/hooks/useTypewriter.ts:36-40 | From any prefix, typing reaches the whole word one character per step. |
| `Typewriter.DeletingPhase` | src/hooks/useTypewriter.ts:31-35 | While deleting, the text empties one character per step. |
| `Typewriter.RunAdditive` | src/hooks/useTypewriter.ts:18-44 | Running a + b steps is running a steps then b, and validity is kept throughout. |
| `Typewriter.WordCycle` | src/hooks/useTypewriter.ts:24-40 | Words come in cyclic order: typing, pausing, deleting and advancing take 2·|w| + 2 steps and end at word (i + 1) mod n with empty text. |
| `Typewriter.RunFromInitialValid` | src/hooks/useTypewriter.ts:14-16 | From the initial state ("" at word 0, not deleting), every reachable state is valid. |
| `Hero.Step` | src/components/Hero.tsx:9-18 | A step fires only while text remains. It reveals one more character and keeps the text equal to the first currentIndex characters. |
| `Hero.RunReveals` | src/components/Hero.tsx:10-13 | After k steps from i revealed characters, min(i + k, length) are revealed. |
| `Hero.TypingCompletes` | src/components/Hero.tsx:5-18 | From "" at 0, after k steps the first min(k, length) characters show. After length steps the full text shows and further steps change nothing. |
| `StoryReaderPage.Initialize` | src/pages/StoryReaderPage.tsx:22-47 | A missing or empty slug sets "No story specified". A loaded story sets page 0, null sets "Story not found" and a throw sets "Failed to load story". Loading is off after every outcome. |
| `StoryReaderPage.NextPage` | src/pages/StoryReaderPage.tsx:49-53 | Paging forward changes only the page. |
| `StoryReaderPage.PrevPage` | src/pages/StoryReaderPage.tsx:55-59 | Paging back changes only the page. |
| `StoryReaderPage.Render` | src/pages/StoryReaderPage.tsx:65-113 | The spinner shows iff loading. The error view shows iff error is set or the story is null, with the error or "Story not found". The book shows the current page of the story. |
| `StoryReaderPage.TransitionsPreserveValid` | src/pages/StoryReaderPage.tsx:17-59 | The page index stays non-negative, and inside a non-empty page list, after every transition. |
| `StoryReaderPage.PagingGuards` | src/pages/StoryReaderPage.tsx:49-110 | nextPage increments iff a story is loaded and page < length − 1. prevPage decrements iff page > 0. Otherwise nothing changes, and canGoNext/canGoPrev equal these guards. |
| `StoryReaderPage.FirstLoadView` | src/pages/StoryReaderPage.tsx:22-97 | After the first load, each outcome shows its message, or the first page of the story. A story with no pages makes the page read throw. |
| `StoryReaderPage.ValidNeverThrows` | src/pages/StoryReaderPage.tsx:92-97 | In a valid state the page read fails only for a story with no pages. |
| `StoryReaderPage.EarlierErrorPersists` | src/pages/StoryReaderPage.tsx:22-80 | An error from an earlier slug is never cleared, so a later successful load still shows the error view. |
| `App.NextPage` | src/App.tsx:51-55 | Paging forward moves by at most one and keeps the selection. |
| `App.PrevPage` | src/App.tsx:57-61 | Paging back moves by at most one and keeps the selection. |
| `App.SelectStory` | src/App.tsx:63-66 | Selecting i sets both the page and the selection to i. |
| `App.BackToHome` | src/App.tsx:68-70 | Going home clears the selection and leaves the page unchanged. |
| `App.Render` | src/App.tsx:72-102 | The landing view, with the five stories, shows iff nothing is selected. Otherwise the book shows stories[currentPage], which is undefined outside the list. |
| `App.TransitionsPreserveValid` | src/App.tsx:48-70 | Paging and going home keep the index among the five stories. Selecting keeps it there iff the selected index is one of them. |
| `App.PagingGuards` | src/App.tsx:51-99 | nextPage moves iff page < 4 and prevPage moves iff page > 0. canGoNext/canGoPrev equal these guards. |
| `App.BookFollowsCurrentPage` | src/App.tsx:63-93 | The book follows currentPage, not the selection. After selecting and paging, a different story shows, and going home keeps the page reached. |
| `App.ValidBookHasStory` | src/App.tsx:92-99 | In a valid state with a selection, the book always has a story. |

## Left out

- Network access, `fetch`, `Promise.all` and console logging in the loader. Each fetch outcome is an input: `None`, or a ok/non-ok/failed response value.
- `JSON.parse` and the engine's "position N" message. The error position is an input of `ParseErrorLine.LocateErrorLine`, and the document is already parsed into datatypes.
- JSON values of the wrong type in `meta.json`/`en.json` beyond a missing image string and a non-array `pages` (for example a numeric `text`), because the datatypes fix the field types.
- UploadToR2.UpdateStoryJson: a story document that is JSON `null`, or a `null` entry in its `pages` array, makes the script throw inside its `try` and return `false`. A `null` document ends the same way as a parse failure, so it is covered by `document` = `None`. A `null` page has no datatype value, so that path is not modelled.
- The availability probe and document fetches are sequences aligned with the slugs, one independent fetch per slug, because the real fetches are independent requests.
- StoryLoader.LoadStory: `loadStory` fetches the manifest again; the second fetch is a separate input.
- Google GenAI and Cloud TTS calls, file writes, `wave` concatenation and the JSON dump in the narration scripts, because they are I/O. Speech synthesis is the `synth` parameter, which gives a duration.
- NarrationTiming.GenerateNarrationWithTiming: the story file is taken to have the expected types. A `"title": null` makes the script say "None." (scripts/google_text_to_speech/cloud-tts-with-timing.py:109, 134); the model has no null title, only a missing one, which becomes "Story". A `"page": null` makes `f"{page_num:02d}"` raise a TypeError (scripts/google_text_to_speech/cloud-tts-with-timing.py:150, 156), while the model treats a page with no number as page 0. A page that is not an object makes `page_data.get` raise an AttributeError (scripts/google_text_to_speech/cloud-tts-with-timing.py:150); the model has no such page.
- Floating-point rounding of durations (frames / rate); durations are reals.
- Python's `int()`: it is modelled as an optional sign followed by ASCII digits, so underscores and non-ASCII digits are not modelled. Around the digits it skips the characters `str.isspace()` accepts except the separators U+001C to U+001F (`Common.IntSpace`); `strip()` removes all of them (`Common.IsSpace`).
- Python's `lower()` and JavaScript's `toLowerCase` (`Common.ToLower`): only ASCII letters are folded. Only two non-ASCII characters have a lower case containing an ASCII letter: U+0130, which lowers to "i" plus a combining dot, and the Kelvin sign U+212A, which lowers to "k". The "rate=" prefix test and the four image-suffix tests of `UploadToR2.IsImageFile` contain neither letter, so those tests give the same answers as the full folding.
- ParseErrorLine.LocateErrorLine: JavaScript counts `.length`, `substring` offsets and the parse error's "position N" in UTF-16 code units. The model counts Unicode scalar values, so a character outside the Basic Multilingual Plane (an emoji, say) before the error shifts the real position by one per such character, and the model does not reproduce that shift.
- Typewriter.Step: the text grows and shrinks by one Unicode scalar value per step, whereas `substring` steps by UTF-16 code units and can split a surrogate pair.
- Hero.Step: characters are Unicode scalar values, whereas `fullText.substring(0, currentIndex + 1)` counts UTF-16 code units. The difference cannot show, because the text is a fixed string of ASCII characters (src/components/Hero.tsx:5).
- StoryLoader.CdnBaseUrl: the loader functions take the base URL as their `cdnBase` parameter, and nothing forces it to be `CdnBaseUrl` of the page's hostname. The module-level constant is read once at load, so the caller supplies it.
- The S3/R2 client, `fs` directory listing and `process.exit` in the upload script. HEAD and PUT results are inputs, directory entries are a sequence, and an exit is an outcome value.
- UploadToR2.UpdateStoryJson: a failed write of the backup or the rewritten file is not modelled, because writes are I/O; only a parse failure makes the update fail.
- `getStoryDirectories`' filtering of directories by content, because it is a directory listing; the run receives the story directories as a sequence.
- Timer delays (`setTimeout` speeds) in `useTypewriter` and `Hero`: only the step functions are modelled, one step per completed timeout.
- Typewriter.Step: the word list is fixed for a run, although React lets it change between renders.
- Rendering, animation and routing: the views are datatypes naming what is shown.
- App.Render: the built-in stories keep only their ids and titles; their long content and image URLs are not modelled.
- NarrationAudio.WidthThenRate: the service's example "audio/L16;rate=24000" is covered through the general shape "audio/L<w>;rate=<d>", with no lemma about the literal itself.

## Findings

| source | as written | input that shows it | evidently intended | confidence | as-written member | corrected member |
|---|---|---|---|---|---|---|
| scripts/cloudflare/upload-to-r2.js:85-106 | Image discovery lower-cases the file name before testing the extension, but the content type tests the key case-sensitively. | An image named "a.WEBP" is discovered and uploaded with content type application/octet-stream. | The content type of every discovered image is its image MIME type, whatever the case of its extension. | not executed | `UploadToR2.UpperCaseImageIsOctetStream` | `UploadToR2.ContentType` |

The upload run (`UploadImage`, `ProcessStory`, `UploadAll`) keeps the script's own case-sensitive type, so the model of the run is the program as written. `ContentType` is the corrected choice, with its property proved. `LowerCaseKeysTypedCorrectly` shows the two agree on every lower-case key.
