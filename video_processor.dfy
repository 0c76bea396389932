/**
 * The subtitle files the video processor writes itself, before the styled
 * renderer existed: an ASS file in the fixed "Instagram Classic" look (the
 * first word yellow, the others white) with its own size rules and its own
 * fallback. The SubRip (SRT) file it also writes is modelled in `SrtFile`.
 *
 * The lemmas compare the legacy ASS file with the styled renderer's file in
 * the default style: the events and styles agree, the title differs, and
 * the sizes agree once the video is at least 400 pixels high.
 */
module VideoProcessor {
  import opened Wrappers
  import opened Text
  import opened TimeFormat
  import opened Styles
  import opened WordGrouper
  import opened AssFormat
  import opened AssRenderer

  // ---------------------------------------------------------------------
  // Highlighted text
  // ---------------------------------------------------------------------

  /** Yellow for the first word, back to white after it. */
  const ClassicTags := Tags("{\\c&H00d7ff&}", "{\\c&Hffffff&}")

  /** The words with the first one yellow and the others as they are. */
  function HighlightedParts(words: seq<string>): (parts: seq<string>)
    requires |words| > 0
    ensures |parts| == |words|
    ensures parts[0] == ClassicTags.open + words[0] + ClassicTags.close
    ensures forall i :: 1 <= i < |words| ==> parts[i] == words[i]
  {
    [ClassicTags.open + words[0] + ClassicTags.close] + words[1..]
  }

  /** `create_highlighted_ass_text`: the highlighted words, or the display text when there are none. */
  function HighlightedText(seg: Segment): string {
    var words := seg.words.GetOr([]);
    if |words| == 0 then seg.displayText.GetOr("")
    else Join(HighlightedParts(words), " ")
  }

  /** The highlighting loop over a segment's words. */
  method CreateHighlightedAssText(seg: Segment) returns (text: string)
    ensures text == HighlightedText(seg)
  {
    var words := seg.words.GetOr([]);
    if |words| == 0 {
      return seg.displayText.GetOr("");
    }
    var parts: seq<string> := [];
    for i := 0 to |words|
      invariant |parts| == i
      invariant i > 0 ==> parts[0] == ClassicTags.open + words[0] + ClassicTags.close
      invariant forall k :: 1 <= k < i ==> parts[k] == words[k]
    {
      if i == 0 {
        parts := parts + ["{\\c&H00d7ff&}" + words[i] + "{\\c&Hffffff&}"];
      } else {
        parts := parts + [words[i]];
      }
    }
    assert parts == HighlightedParts(words);
    text := Join(parts, " ");
  }

  /** The classic tags are the colour-change tags of the default style. */
  lemma ClassicTagsAreDefault()
    ensures HighlightTags(DefaultStyle) == ClassicTags
  {
    assert HighlightTags(DefaultStyle) == ColorTags(DefaultStyle);
  }

  /** The legacy highlighting is the styled renderer's in the default style. */
  lemma HighlightedIsDefaultStyled(seg: Segment)
    ensures HighlightedText(seg) == StyledText(seg, DefaultStyle)
  {
    ClassicTagsAreDefault();
    var words := seg.words.GetOr([]);
    if |words| > 0 {
      assert HighlightedParts(words) == StyledParts(words, DefaultStyle);
    }
  }

  // ---------------------------------------------------------------------
  // The legacy ASS file
  // ---------------------------------------------------------------------

  /** The font size: 5% of the height, at least 20. */
  function LegacyFontSize(height: int): int {
    ScaledSize(height, 0.05, 20)
  }

  /** The bottom margin: 8% of the height, at least 30. */
  function LegacyMargin(height: int): int {
    ScaledSize(height, 0.08, 30)
  }

  const LegacyTitle := "Subtitle Ninja - Instagram Classic"

  /** An Arial style with a 2-pixel black outline, bottom-centred, on 20-pixel side margins. */
  function ClassicRecord(name: string, colour: string, fontSize: int, marginBottom: int): StyleRecord {
    StyleRecord(name, "Arial", fontSize, colour, colour, "&H000000", "&H80000000", 100, 100, 2, 2,
      20, 20, marginBottom)
  }

  /** The `Default` style in white and the `Highlight` style in yellow. */
  function LegacyStyles(fontSize: int, marginBottom: int): seq<StyleRecord> {
    [ClassicRecord("Default", "&Hffffff", fontSize, marginBottom),
     ClassicRecord("Highlight", "&H00d7ff", fontSize, marginBottom)]
  }

  /** The event of one segment. */
  function LegacyDialogueLine(seg: Segment): string {
    EventLine(SecondsToAssTime(seg.start), SecondsToAssTime(seg.end), HighlightedText(seg))
  }

  function LegacyDialogueLines(segs: seq<Segment>): seq<string> {
    Map(segs, LegacyDialogueLine)
  }

  /** `generate_ass_content`: the classic header, then the events joined by newlines. */
  function LegacyAssContent(segs: seq<Segment>, width: int, height: int): string {
    Document(LegacyTitle, LegacyStyles(LegacyFontSize(height), LegacyMargin(height)),
      LegacyDialogueLines(segs))
  }

  /** The event loop of `generate_ass_content`. */
  method LegacyDialogues(segs: seq<Segment>) returns (lines: seq<string>)
    ensures lines == LegacyDialogueLines(segs)
  {
    lines := [];
    for i := 0 to |segs|
      invariant lines == LegacyDialogueLines(segs[..i])
    {
      var startTime := SecondsToAssTime(segs[i].start);
      var endTime := SecondsToAssTime(segs[i].end);
      var highlightedText := CreateHighlightedAssText(segs[i]);
      assert segs[..i + 1][..i] == segs[..i];
      lines := lines + [EventLine(startTime, endTime, highlightedText)];
    }
    assert segs[..|segs|] == segs;
  }

  method GenerateAssContent(segs: seq<Segment>, width: int, height: int) returns (content: string)
    ensures content == LegacyAssContent(segs, width, height)
  {
    var baseFontSize := ScaledSize(height, 0.05, 20);
    var bottomMargin := ScaledSize(height, 0.08, 30);
    var header := Header(LegacyTitle, LegacyStyles(baseFontSize, bottomMargin));
    var lines := LegacyDialogues(segs);
    content := header + Join(lines, "\n");
  }

  /** `generate_empty_ass_file`: a fixed 24-point style over a 50-pixel margin and the fallback event. */
  function LegacyEmptyAssFile(): string {
    Document("Subtitle Ninja", [ClassicRecord("Default", "&Hffffff", 24, 50)], [NoSpeechEvent, ""])
  }

  /** `create_ass_file_from_segments`: the fallback for no segments, else the full file. */
  function LegacyFileContent(segs: seq<Segment>, width: int, height: int): string {
    if |segs| == 0 then LegacyEmptyAssFile() else LegacyAssContent(segs, width, height)
  }

  // ---------------------------------------------------------------------
  // The legacy file against the styled renderer's
  // ---------------------------------------------------------------------

  /** The legacy styles are the renderer's two styles for the default style. */
  lemma LegacyStylesAreDefault(fontSize: int, marginBottom: int)
    ensures LegacyStyles(fontSize, marginBottom) == RendererStyles(DefaultStyle, fontSize, MarginSide, marginBottom)
  {
  }

  /** The legacy events are the renderer's events in the default style. */
  lemma LegacyDialogueLinesAreDefault(segs: seq<Segment>)
    ensures LegacyDialogueLines(segs) == DialogueLines(segs, DefaultStyle)
  {
    MapAt(segs, LegacyDialogueLine);
    DialogueLinesAt(segs, DefaultStyle);
    forall i | 0 <= i < |segs|
      ensures LegacyDialogueLines(segs)[i] == DialogueLines(segs, DefaultStyle)[i]
    {
      HighlightedIsDefaultStyled(segs[i]);
    }
  }

  /** From 400 pixels up, both generators size the default style alike. */
  lemma TallVideoSizes(height: int)
    requires height >= 400
    ensures LegacyFontSize(height) == FontSize(height, DefaultStyle)
    ensures LegacyMargin(height) == MarginBottom(height, DefaultStyle)
  {
    assert height as real * 0.05 >= 20.0;
    assert height as real * 0.08 >= 32.0;
  }

  /** Below that the legacy minimums win: at 100 pixels, 20 points over 30 pixels against 16 over 20. */
  lemma SmallVideoSizes()
    ensures LegacyFontSize(100) == 20 && FontSize(100, DefaultStyle) == 16
    ensures LegacyMargin(100) == 30 && MarginBottom(100, DefaultStyle) == 20
  {
    assert 100 as real * 0.05 == 5.0;
    assert 100 as real * 0.08 == 8.0;
  }

  /**
   * From 400 pixels up, the legacy file is the renderer's file for the
   * default style but for its title.
   */
  lemma LegacyIsRetitledDefault(segs: seq<Segment>, width: int, height: int)
    requires height >= 400
    ensures var styles := RendererStyles(DefaultStyle, FontSize(height, DefaultStyle), MarginSide,
                                         MarginBottom(height, DefaultStyle));
      LegacyAssContent(segs, width, height) == Document(LegacyTitle, styles, DialogueLines(segs, DefaultStyle)) &&
      AssContent(segs, width, height, DefaultStyle) ==
        Document(RendererTitle(DefaultStyle), styles, DialogueLines(segs, DefaultStyle))
  {
    TallVideoSizes(height);
    LegacyStylesAreDefault(LegacyFontSize(height), LegacyMargin(height));
    LegacyDialogueLinesAreDefault(segs);
  }

  /** The legacy fallback is the renderer's fallback shape at 24 points over 50 pixels. */
  lemma LegacyFallbackShape()
    ensures LegacyEmptyAssFile() ==
      Document("Subtitle Ninja", [EmptyRecord(DefaultStyle, 24, 50)], [NoSpeechEvent, ""])
  {
    assert EmptyRecord(DefaultStyle, 24, 50) == ClassicRecord("Default", "&Hffffff", 24, 50);
  }

  /**
   * No video height makes the renderer size the default style at 24 points
   * over 50 pixels: the font needs a height below 500, the margin one of at
   * least 625.
   */
  lemma NoHeightGivesLegacyFallback(height: int)
    ensures FontSize(height, DefaultStyle) == 24 ==> height < 500
    ensures MarginBottom(height, DefaultStyle) == 50 ==> height >= 625
    ensures !(FontSize(height, DefaultStyle) == 24 && MarginBottom(height, DefaultStyle) == 50)
  {
    if FontSize(height, DefaultStyle) == 24 {
      assert Trunc(height as real * 0.05) == 24;
    }
    if MarginBottom(height, DefaultStyle) == 50 {
      assert Trunc(height as real * 0.08) == 50;
    }
  }

  // ---------------------------------------------------------------------
  // Reading the legacy ASS file back
  // ---------------------------------------------------------------------

  /** The default style's strings hold no line break. */
  lemma DefaultStyleSingle()
    ensures StyleSingleLine(DefaultStyle)
  {
    assert '\n' !in "Arial";
  }

  lemma LegacyStylesSingle(fontSize: int, marginBottom: int)
    ensures '\n' !in LegacyTitle
    ensures var records := LegacyStyles(fontSize, marginBottom);
      forall i :: 0 <= i < |records| ==> RecordSingleLine(records[i])
  {
    DefaultStyleSingle();
    LegacyStylesAreDefault(fontSize, marginBottom);
    RendererStylesSingle(DefaultStyle, fontSize, MarginSide, marginBottom);
  }

  /** Each legacy event is a single `Dialogue:` line. */
  lemma LegacyDialoguesSingle(segs: seq<Segment>)
    requires forall i :: 0 <= i < |segs| ==> SegmentSingleLine(segs[i])
    ensures var events := LegacyDialogueLines(segs);
      (forall i :: 0 <= i < |events| ==> '\n' !in events[i]) &&
      CountWithPrefix(events, "Dialogue: ") == |segs| && CountWithPrefix(events, "Style: ") == 0
  {
    DefaultStyleSingle();
    LegacyDialogueLinesAreDefault(segs);
    DialogueLinesSingle(segs, DefaultStyle);
    DialogueCounts(segs, DefaultStyle);
  }

  /** A legacy file has the two style lines and exactly one event line per segment. */
  lemma LegacyAssContentCounts(segs: seq<Segment>, width: int, height: int)
    requires |segs| > 0
    requires forall i :: 0 <= i < |segs| ==> SegmentSingleLine(segs[i])
    ensures var lines := Split(LegacyAssContent(segs, width, height), '\n');
      lines == HeaderLines(LegacyTitle, LegacyStyles(LegacyFontSize(height), LegacyMargin(height))) +
        LegacyDialogueLines(segs) &&
      CountWithPrefix(lines, "Style: ") == 2 && CountWithPrefix(lines, "Dialogue: ") == |segs|
  {
    var styles := LegacyStyles(LegacyFontSize(height), LegacyMargin(height));
    var events := LegacyDialogueLines(segs);
    LegacyStylesSingle(LegacyFontSize(height), LegacyMargin(height));
    LegacyDialoguesSingle(segs);
    MapAt(segs, LegacyDialogueLine);
    DocumentLines(LegacyTitle, styles, events);
    DocumentCounts(LegacyTitle, styles, events);
  }

  /** The legacy fallback declares one style and holds one event. */
  lemma LegacyEmptyFileLines()
    ensures var lines := Split(LegacyEmptyAssFile(), '\n');
      lines == HeaderLines("Subtitle Ninja", [ClassicRecord("Default", "&Hffffff", 24, 50)]) + [NoSpeechEvent, ""] &&
      CountWithPrefix(lines, "Style: ") == 1 && CountWithPrefix(lines, "Dialogue: ") == 1
  {
    var record := ClassicRecord("Default", "&Hffffff", 24, 50);
    assert RecordSingleLine(record);
    FallbackDocumentLines(record);
  }

  /**
   * Whatever `create_ass_file_from_segments` writes holds one event per
   * segment, or the single fallback event when there are none.
   */
  lemma LegacyEventCount(segs: seq<Segment>, width: int, height: int)
    requires forall i :: 0 <= i < |segs| ==> SegmentSingleLine(segs[i])
    ensures CountWithPrefix(Split(LegacyFileContent(segs, width, height), '\n'), "Dialogue: ") ==
      if |segs| == 0 then 1 else |segs|
  {
    if |segs| == 0 {
      LegacyEmptyFileLines();
    } else {
      LegacyAssContentCounts(segs, width, height);
    }
  }
}
