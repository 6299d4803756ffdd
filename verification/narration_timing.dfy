/**
 Timeline assembly in `generate_narration_with_timing`
 (scripts/google_text_to_speech/cloud-tts-with-timing.py): one entry for the
 title, then one per page with text, each starting where the previous one
 ended. Speech synthesis is the parameter `synth`, which maps a text to the
 duration of the audio produced for it; the files themselves, the JSON dump
 and the concatenation are not modelled.
 */
module NarrationTiming {
  import opened Common

  /** A page of the story document: `page` and `text` may be missing. */
  datatype PageInput = PageInput(page: Option<int>, text: Option<string>)

  /** The story document: `title` and `pages` may be missing. */
  datatype StoryInput = StoryInput(title: Option<string>, pages: Option<seq<PageInput>>)

  datatype EntryKind = Title | Content

  /** One element of `timing_data["pages"]`. */
  datatype TimingEntry = TimingEntry(page: int, kind: EntryKind, start: real, end: real, duration: real)

  /** The returned `timing_data`. */
  datatype TimingData = TimingData(title: string, totalDuration: real, pages: seq<TimingEntry>)

  /** `story.get('title', 'Story')`. */
  function TitleOf(story: StoryInput): string {
    story.title.GetOr("Story")
  }

  /** `story.get('pages', [])`. */
  function PagesOf(story: StoryInput): seq<PageInput> {
    story.pages.GetOr([])
  }

  /** `page_data.get('page', 0)`. */
  function PageNumber(p: PageInput): int {
    p.page.GetOr(0)
  }

  /** A page is narrated unless its text is missing or empty (`if not text: continue`). */
  predicate HasText(p: PageInput) {
    p.text.Some? && p.text.value != ""
  }

  /** The narrated pages, in input order. */
  function Spoken(pages: seq<PageInput>): (spoken: seq<PageInput>)
    ensures forall k :: 0 <= k < |spoken| ==> HasText(spoken[k])
  {
    Filter(pages, HasText)
  }

  /** `f"{n:02d}"`: at least two characters, zero-padded after the sign. */
  function Pad2(n: int): (s: string)
    ensures |s| >= 2
  {
    if 0 <= n < 10 then "0" + NatToString(n) else IntToString(n)
  }

  /** The padded number reads back as the number, and 0..99 take exactly two digits. */
  lemma Pad2Parses(n: int)
    ensures ParseInt(Pad2(n)) == Some(n)
    ensures 0 <= n < 100 ==> |Pad2(n)| == 2
  {
    var s := Pad2(n);
    if 0 <= n < 10 {
      assert s == ['0', DigitChar(n)];
      assert s[..1] == "0" && DigitsValue(s[..1]) == DigitsValue(s[..1][..0]) * 10 + 0;
      assert DigitsValue(s) == n;
      IntStripNoSpace(s);
    } else {
      ParseIntToString(n);
      if 10 <= n < 100 {
        assert s == NatToString(n / 10) + [DigitChar(n % 10)];
      }
    }
  }

  const TitleFileName := "page-00-title.wav"

  function PageFileName(n: int): string {
    "page-" + Pad2(n) + ".wav"
  }

  /**
   `entries` and `files` are what the loop has produced for the narrated
   pages `spoken`: the title entry first (page 0, from time 0, lasting as
   long as the spoken title), then one content entry per narrated page in
   order, each lasting as long as its text, starting at the previous end
   and ending at its start plus its duration, with one file per entry.
   */
  predicate Assembled(title: string, spoken: seq<PageInput>, synth: string -> real,
                      entries: seq<TimingEntry>, files: seq<string>)
  {
    && |entries| == |files| == 1 + |spoken|
    && entries[0] == TimingEntry(0, Title, 0.0, synth(title + "."), synth(title + "."))
    && files[0] == TitleFileName
    && forall k :: 1 <= k < |entries| ==>
         && entries[k].page == PageNumber(spoken[k - 1])
         && entries[k].kind == Content
         && entries[k].duration == synth(spoken[k - 1].text.GetOr(""))
         && entries[k].start == entries[k - 1].end
         && entries[k].end == entries[k].start + entries[k].duration
         && files[k] == PageFileName(PageNumber(spoken[k - 1]))
  }

  /** One more narrated page appends its entry, starting at the last end, and its file. */
  lemma AssembledSnoc(title: string, spoken: seq<PageInput>, synth: string -> real,
                      entries: seq<TimingEntry>, files: seq<string>, p: PageInput)
    requires Assembled(title, spoken, synth, entries, files)
    requires HasText(p)
    ensures var d := synth(p.text.value);
      var last := entries[|entries| - 1].end;
      Assembled(title, spoken + [p], synth,
                entries + [TimingEntry(PageNumber(p), Content, last, last + d, d)],
                files + [PageFileName(PageNumber(p))])
  {
  }

  /**
   One iteration of the page loop: a page with text is synthesised and
   appended at the running time, which advances by its duration; a page
   without text changes nothing.
   */
  method NarratePage(title: string, ghost spoken: seq<PageInput>, synth: string -> real,
                     entries: seq<TimingEntry>, files: seq<string>, currentTime: real, pageData: PageInput)
    returns (entries': seq<TimingEntry>, files': seq<string>, time': real)
    requires Assembled(title, spoken, synth, entries, files)
    requires currentTime == entries[|entries| - 1].end
    ensures Assembled(title, spoken + (if HasText(pageData) then [pageData] else []), synth, entries', files')
    ensures time' == entries'[|entries'| - 1].end
  {
    var pageNum := pageData.page.GetOr(0);
    var text := pageData.text.GetOr("");
    entries', files', time' := entries, files, currentTime;
    if text != "" {
      var duration := synth(text);
      AssembledSnoc(title, spoken, synth, entries, files, pageData);
      files' := files + [PageFileName(pageNum)];
      entries' := entries + [TimingEntry(pageNum, Content, currentTime, currentTime + duration, duration)];
      time' := currentTime + duration;
    } else {
      assert spoken + [] == spoken;
    }
  }

  /**
   `generate_narration_with_timing` after loading the story: the title entry,
   then the loop over the pages; `totalDuration` is the running time at the
   end.
   */
  method GenerateNarrationWithTiming(story: StoryInput, synth: string -> real)
    returns (timing: TimingData, files: seq<string>)
    ensures timing.title == TitleOf(story)
    ensures Assembled(TitleOf(story), Spoken(PagesOf(story)), synth, timing.pages, files)
    ensures timing.totalDuration == timing.pages[|timing.pages| - 1].end
  {
    var title := TitleOf(story);
    var pages := PagesOf(story);
    var currentTime: real := 0.0;
    var titleDuration := synth(title + ".");
    var entries := [TimingEntry(0, Title, currentTime, currentTime + titleDuration, titleDuration)];
    files := [TitleFileName];
    currentTime := currentTime + titleDuration;
    var i := 0;
    ghost var spoken: seq<PageInput> := [];
    while i < |pages|
      invariant 0 <= i <= |pages|
      invariant spoken == Spoken(pages[..i])
      invariant Assembled(title, spoken, synth, entries, files)
      invariant currentTime == entries[|entries| - 1].end
    {
      assert pages[..i + 1] == pages[..i] + [pages[i]];
      FilterSnoc(pages[..i], pages[i], HasText);
      entries, files, currentTime := NarratePage(title, spoken, synth, entries, files, currentTime, pages[i]);
      spoken := spoken + (if HasText(pages[i]) then [pages[i]] else []);
      i := i + 1;
    }
    assert pages[..|pages|] == pages;
    timing := TimingData(title, currentTime, entries);
  }

  // ---------------------------------------------------------------------------
  // properties of the timeline

  /** Sum of the entries' durations. */
  function SumDurations(entries: seq<TimingEntry>): real {
    if |entries| == 0 then 0.0 else SumDurations(entries[..|entries| - 1]) + entries[|entries| - 1].duration
  }

  /** Each entry starts at the previous end and ends at its start plus its duration. */
  predicate Contiguous(entries: seq<TimingEntry>) {
    && (forall k :: 0 <= k < |entries| ==> entries[k].end == entries[k].start + entries[k].duration)
    && (forall k :: 1 <= k < |entries| ==> entries[k].start == entries[k - 1].end)
  }

  /** A contiguous timeline from 0 ends at the sum of its durations. */
  lemma {:induction false} EndIsSum(entries: seq<TimingEntry>)
    requires |entries| >= 1 && Contiguous(entries) && entries[0].start == 0.0
    ensures entries[|entries| - 1].end == SumDurations(entries)
  {
    if |entries| > 1 {
      var init := entries[..|entries| - 1];
      assert Contiguous(init);
      EndIsSum(init);
    } else {
      assert entries[..0] == [];
    }
  }

  /** With non-negative durations, entries never start earlier than an earlier entry. */
  lemma {:induction false} StartsNonDecreasing(entries: seq<TimingEntry>, j: nat, k: nat)
    requires Contiguous(entries)
    requires forall i :: 0 <= i < |entries| ==> entries[i].duration >= 0.0
    requires j <= k < |entries|
    ensures entries[j].start <= entries[k].start
    decreases k - j
  {
    if j < k {
      StartsNonDecreasing(entries, j + 1, k);
    }
  }

  /**
   The total is the sum of all durations, the title's included, and the
   timeline is contiguous from 0; when `synth` never yields a negative
   duration, start times never decrease.
   */
  lemma TimelineProperties(story: StoryInput, synth: string -> real, timing: TimingData, files: seq<string>)
    requires timing.title == TitleOf(story)
    requires Assembled(TitleOf(story), Spoken(PagesOf(story)), synth, timing.pages, files)
    requires timing.totalDuration == timing.pages[|timing.pages| - 1].end
    ensures timing.totalDuration == SumDurations(timing.pages)
    ensures (forall t :: synth(t) >= 0.0) ==>
      forall j, k :: 0 <= j <= k < |timing.pages| ==> timing.pages[j].start <= timing.pages[k].start
  {
    assert Contiguous(timing.pages);
    EndIsSum(timing.pages);
    if forall t :: synth(t) >= 0.0 {
      forall j, k | 0 <= j <= k < |timing.pages|
        ensures timing.pages[j].start <= timing.pages[k].start
      {
        StartsNonDecreasing(timing.pages, j, k);
      }
    }
  }

  /**
   The narrated pages are exactly the pages with text, in input order; a
   page without text contributes no entry, no file and no time.
   */
  lemma SpokenIsFilter(pages: seq<PageInput>)
    ensures var ix := KeptIndices(Flags(pages, HasText));
      |Spoken(pages)| == |ix| && forall k :: 0 <= k < |ix| ==> Spoken(pages)[k] == pages[ix[k]]
  {
    FilterIsKept(pages, HasText);
  }

  /** Page numbers print with two digits at least: 3 as "03", 12 as "12". */
  lemma PageFileNames()
    ensures PageFileName(3) == "page-03.wav"
    ensures PageFileName(12) == "page-12.wav"
  {
  }
}
