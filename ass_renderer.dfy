/**
 * The styled ASS renderer: a header declaring a `Default` and a
 * `Highlight` style sized from the video height, then one `Dialogue`
 * event per display segment whose first word is wrapped in the override
 * tags of the chosen highlight effect. With no segments it writes a
 * fallback file holding a single "No speech detected" event.
 *
 * The header, written in the source as one multi-line literal, is modelled
 * as its list of lines joined by newlines plus the final newline, which is
 * the same string; this is what lets the lemmas read the file back line by
 * line.
 */
module AssRenderer {
  import opened Wrappers
  import opened Text
  import opened TimeFormat
  import opened Styles
  import opened WordGrouper
  import opened AssFormat

  // ---------------------------------------------------------------------
  // Sizes
  // ---------------------------------------------------------------------

  /** `max(int(height * ratio), minimum)`. */
  function ScaledSize(height: int, ratio: real, minimum: int): (r: int)
    ensures r >= minimum && r >= Trunc(height as real * ratio)
    ensures r == minimum || r == Trunc(height as real * ratio)
  {
    var scaled := Trunc(height as real * ratio);
    if scaled >= minimum then scaled else minimum
  }

  /** The font size: a fraction of the height, at least 16. */
  function FontSize(height: int, style: StyleConfig): int {
    ScaledSize(height, style.fontSizeRatio, 16)
  }

  /** The bottom margin: a fraction of the height, at least 20. */
  function MarginBottom(height: int, style: StyleConfig): int {
    ScaledSize(height, style.marginRatio, 20)
  }

  /** The left and right margins. */
  const MarginSide := 20

  /** The percentage the `Highlight` style and the scale effect enlarge to. */
  function HighlightScale(style: StyleConfig): (r: int)
    ensures r == 100 || r == 120
    ensures r > 100 <==> style.highlightStyle == "scale_up"
  {
    if style.highlightStyle == "scale_up" then 120 else 100
  }

  /** The back colour both styles use: the style's own only when the background is on. */
  function BackColour(style: StyleConfig): string {
    if style.backgroundEnabled then style.backgroundColor else "&H80000000"
  }

  // ---------------------------------------------------------------------
  // Styled text
  // ---------------------------------------------------------------------

  /** The override tags written before and after the highlighted word. */
  datatype Tags = Tags(open: string, close: string)

  /** Colour the word with the highlight colour, then return to the base colour. */
  function ColorTags(style: StyleConfig): Tags {
    Tags("{\\c" + style.highlightColor + "&}", "{\\c" + style.baseColor + "&}")
  }

  /** Enlarge and colour the word. */
  function ScaleOpen(style: StyleConfig): string {
    var scale := FormatInt(HighlightScale(style), 0);
    "{\\fscx" + scale + "\\fscy" + scale + "\\c" + style.highlightColor + "&}"
  }

  /** Return to natural size and the base colour. */
  function ScaleClose(style: StyleConfig): string {
    "{\\fscx100\\fscy100\\c" + style.baseColor + "&}"
  }

  function ScaleTags(style: StyleConfig): Tags {
    Tags(ScaleOpen(style), ScaleClose(style))
  }

  /**
   * Colour the word and give it a shadow in the highlight colour (deeper
   * at `strong` intensity) with the style's outline width.
   */
  function GlowOpen(style: StyleConfig): string {
    var shadow := if style.glowIntensity == "strong" then 3 else 2;
    "{\\c" + style.highlightColor + "&\\3c" + style.outlineColor + "&\\4c" + style.highlightColor
      + "&\\bord" + FormatInt(style.outlineWidth, 0) + "\\shad" + FormatInt(shadow, 0) + "}"
  }

  /** Reset to the base colour, a black shadow colour, a 2-pixel border and no shadow. */
  function GlowClose(style: StyleConfig): string {
    "{\\c" + style.baseColor + "&\\3c" + style.outlineColor + "&\\4c&H00000000&\\bord2\\shad0}"
  }

  function GlowTags(style: StyleConfig): Tags {
    Tags(GlowOpen(style), GlowClose(style))
  }

  /** Draw a 6-pixel border in the highlight colour behind the word, then restore the outline. */
  function BackgroundTags(style: StyleConfig): Tags {
    Tags("{\\c" + style.baseColor + "&\\3c" + style.highlightColor + "&\\bord6}",
         "{\\3c" + style.outlineColor + "&\\bord2}")
  }

  /** The tags of each highlight effect; an unknown effect, or a glow that is off, colours only. */
  function HighlightTags(style: StyleConfig): Tags {
    if style.highlightStyle == "color_change" then ColorTags(style)
    else if style.highlightStyle == "scale_up" then ScaleTags(style)
    else if style.highlightStyle == "glow_pulse" then
      if style.glowEnabled then GlowTags(style) else ColorTags(style)
    else if style.highlightStyle == "background_highlight" then BackgroundTags(style)
    else ColorTags(style)
  }

  /** The first word between the effect's tags. */
  function HighlightWord(word: string, style: StyleConfig): string {
    var tags := HighlightTags(style);
    tags.open + word + tags.close
  }

  /** The words with the first one highlighted and the others as they are. */
  function StyledParts(words: seq<string>, style: StyleConfig): (parts: seq<string>)
    requires |words| > 0
    ensures |parts| == |words|
    ensures parts[0] == HighlightWord(words[0], style)
    ensures forall i :: 1 <= i < |words| ==> parts[i] == words[i]
  {
    [HighlightWord(words[0], style)] + words[1..]
  }

  /** A segment's event text: its styled words, or its display text when it has no words. */
  function StyledText(seg: Segment, style: StyleConfig): string {
    var words := seg.words.GetOr([]);
    if |words| == 0 then seg.displayText.GetOr("")
    else Join(StyledParts(words, style), " ")
  }

  /** The styling loop over a segment's words. */
  method CreateStyledText(seg: Segment, style: StyleConfig) returns (text: string)
    ensures text == StyledText(seg, style)
  {
    var words := seg.words.GetOr([]);
    if |words| == 0 {
      return seg.displayText.GetOr("");
    }
    var parts: seq<string> := [];
    for i := 0 to |words|
      invariant |parts| == i
      invariant i > 0 ==> parts[0] == HighlightWord(words[0], style)
      invariant forall k :: 1 <= k < i ==> parts[k] == words[k]
    {
      if i == 0 {
        var tags := HighlightTags(style);
        parts := parts + [tags.open + words[i] + tags.close];
      } else {
        parts := parts + [words[i]];
      }
    }
    assert parts == StyledParts(words, style);
    text := Join(parts, " ");
  }

  /**
   * The documented fallbacks: an unknown effect, and `glow_pulse` with the
   * glow off, style exactly like `color_change`.
   */
  lemma FallbackEffects(style: StyleConfig)
    ensures style.highlightStyle !in HighlightModes ==>
      HighlightTags(style) == HighlightTags(style.(highlightStyle := "color_change"))
    ensures style.highlightStyle == "glow_pulse" && !style.glowEnabled ==>
      HighlightTags(style) == HighlightTags(style.(highlightStyle := "color_change"))
  {
  }

  /** The colour effect switches to the highlight colour and back to the base colour. */
  lemma ColorChangeTags(style: StyleConfig)
    requires style.highlightStyle == "color_change"
    ensures HighlightTags(style) == Tags("{\\c" + style.highlightColor + "&}", "{\\c" + style.baseColor + "&}")
  {
  }

  /** The scale effect enlarges the word to 120 per cent and returns to 100. */
  lemma ScaleUpTags(style: StyleConfig)
    requires style.highlightStyle == "scale_up"
    ensures HighlightTags(style) ==
      Tags("{\\fscx120\\fscy120\\c" + style.highlightColor + "&}",
           "{\\fscx100\\fscy100\\c" + style.baseColor + "&}")
  {
    assert FormatInt(120, 0) == "120";
  }

  /** A glow that is on draws a shadow of depth 3 at `strong` intensity and 2 otherwise. */
  lemma GlowShadow(style: StyleConfig)
    requires style.highlightStyle == "glow_pulse" && style.glowEnabled
    ensures var shadow := if style.glowIntensity == "strong" then "3" else "2";
      HighlightTags(style).open ==
        "{\\c" + style.highlightColor + "&\\3c" + style.outlineColor + "&\\4c" + style.highlightColor
        + "&\\bord" + FormatInt(style.outlineWidth, 0) + "\\shad" + shadow + "}"
    ensures HighlightTags(style).close ==
      "{\\c" + style.baseColor + "&\\3c" + style.outlineColor + "&\\4c&H00000000&\\bord2\\shad0}"
  {
    assert FormatInt(3, 0) == "3" && FormatInt(2, 0) == "2";
  }

  /**
   * The background effect keeps the word in the base colour and draws a
   * border of width 6 in the highlight colour, then restores the outline
   * colour at width 2.
   */
  lemma BackgroundHighlightTags(style: StyleConfig)
    requires style.highlightStyle == "background_highlight"
    ensures HighlightTags(style) ==
      Tags("{\\c" + style.baseColor + "&\\3c" + style.highlightColor + "&\\bord6}",
           "{\\3c" + style.outlineColor + "&\\bord2}")
  {
  }

  /**
   * Styling inserts the effect's tags around the first word of the plain
   * space-joined text and changes nothing else.
   */
  lemma StyledTextWrapsFirstWord(words: seq<string>, style: StyleConfig)
    requires |words| > 0
    ensures var plain, tags := Join(words, " "), HighlightTags(style);
      |words[0]| <= |plain| && plain[..|words[0]|] == words[0] &&
      Join(StyledParts(words, style), " ") == tags.open + words[0] + tags.close + plain[|words[0]|..]
  {
    var tags := HighlightTags(style);
    assert StyledParts(words, style) == [tags.open + words[0] + tags.close] + words[1..];
    WrapFirstWord(words, tags.open, tags.close);
  }

  /** Wrapping the first part of a space-join between two strings. */
  lemma WrapFirstWord(words: seq<string>, open: string, close: string)
    requires |words| > 0
    ensures var plain := Join(words, " ");
      |words[0]| <= |plain| && plain[..|words[0]|] == words[0] &&
      Join([open + words[0] + close] + words[1..], " ") == open + words[0] + close + plain[|words[0]|..]
  {
    var w, rest := words[0], words[1..];
    var plain := Join(words, " ");
    var tail := if |rest| == 0 then "" else " " + Join(rest, " ");
    assert words == [w] + rest;
    JoinCons(w, rest, " ");
    JoinCons(open + w + close, rest, " ");
    assert plain == w + tail;
    assert Join([open + w + close] + rest, " ") == (open + w + close) + tail;
    assert plain[|w|..] == tail;
  }

  /**
   * When no word and neither tag holds a space, the styled text splits at
   * spaces into one token per word: the first wrapped, the rest unchanged.
   */
  lemma StyledTextTokens(words: seq<string>, style: StyleConfig)
    requires |words| > 0
    requires forall i :: 0 <= i < |words| ==> ' ' !in words[i]
    requires ' ' !in HighlightTags(style).open && ' ' !in HighlightTags(style).close
    ensures var tags := HighlightTags(style);
      Split(Join(StyledParts(words, style), " "), ' ') == [tags.open + words[0] + tags.close] + words[1..]
  {
    var parts := StyledParts(words, style);
    assert parts == [HighlightWord(words[0], style)] + words[1..];
    forall i | 0 <= i < |parts|
      ensures ' ' !in parts[i]
    {
      if i > 0 {
        assert parts[i] == words[i];
      }
    }
    assert " " == [' '];
    SplitJoin(parts, ' ');
  }

  /**
   * For a segment of the grouper with a positive group size, the event text
   * is the segment's display text with the effect's tags around its first
   * word.
   */
  lemma GroupedStyledText(words: seq<Word>, wordsPerGroup: int, i: nat, style: StyleConfig)
    requires wordsPerGroup > 0 && i < |words|
    ensures var seg, tags := WordGroups(words, wordsPerGroup)[i], HighlightTags(style);
      var plain, first := seg.displayText.GetOr(""), seg.currentWord;
      |first| <= |plain| && plain[..|first|] == first &&
      StyledText(seg, style) == tags.open + first + tags.close + plain[|first|..]
  {
    var seg := WordGroups(words, wordsPerGroup)[i];
    WordGroupsShape(words, wordsPerGroup, i);
    var group := seg.words.value;
    assert |group| > 0;
    StyledTextWrapsFirstWord(group, style);
  }

  // ---------------------------------------------------------------------
  // Header
  // ---------------------------------------------------------------------

  /** The script title names the style's font. */
  function RendererTitle(style: StyleConfig): string {
    "Subtitle Ninja - " + style.fontFamily
  }

  /** The `Default` style: base colour, natural size. */
  function DefaultRecord(style: StyleConfig, fontSize: int, marginSide: int, marginBottom: int): StyleRecord {
    StyleRecord("Default", style.fontFamily, fontSize, style.baseColor, style.baseColor,
      style.outlineColor, BackColour(style), 100, 100, style.outlineWidth, style.alignment,
      marginSide, marginSide, marginBottom)
  }

  /** The `Highlight` style: highlight colour, scaled by the effect's percentage. */
  function HighlightRecord(style: StyleConfig, fontSize: int, marginSide: int, marginBottom: int): StyleRecord {
    StyleRecord("Highlight", style.fontFamily, fontSize, style.highlightColor, style.highlightColor,
      style.outlineColor, BackColour(style), HighlightScale(style), HighlightScale(style),
      style.outlineWidth, style.alignment, marginSide, marginSide, marginBottom)
  }

  /** The two declared styles, `Default` first. */
  function RendererStyles(style: StyleConfig, fontSize: int, marginSide: int, marginBottom: int): seq<StyleRecord> {
    [DefaultRecord(style, fontSize, marginSide, marginBottom),
     HighlightRecord(style, fontSize, marginSide, marginBottom)]
  }

  /** `_generate_header`: script info, the two styles, the events' `Format:` line. */
  function RendererHeader(fontSize: int, marginSide: int, marginBottom: int, style: StyleConfig): string {
    Header(RendererTitle(style), RendererStyles(style, fontSize, marginSide, marginBottom))
  }

  /** The two declared styles differ only in name, colours and scale. */
  lemma HighlightRecordDiffers(style: StyleConfig, fontSize: int, marginSide: int, marginBottom: int)
    ensures var d, h := DefaultRecord(style, fontSize, marginSide, marginBottom),
                        HighlightRecord(style, fontSize, marginSide, marginBottom);
      h == d.(name := "Highlight", primaryColour := style.highlightColor,
              secondaryColour := style.highlightColor,
              scaleX := HighlightScale(style), scaleY := HighlightScale(style))
  {
  }

  /** The sizes of the default style at 1080 pixels high. */
  lemma ClassicSizes()
    ensures FontSize(1080, DefaultStyle) == 54 && MarginBottom(1080, DefaultStyle) == 86
  {
    assert (1080.0 * 0.05).Floor == 54;
    assert (1080.0 * 0.08).Floor == 86;
  }

  /** The values of the `Default` style of the default configuration at 1080 pixels high, written out. */
  lemma ClassicDefaultStyleFields()
    ensures StyleFields(DefaultRecord(DefaultStyle, 54, MarginSide, 86)) ==
      ["Default", "Arial", "54", "&Hffffff", "&Hffffff", "&H000000", "&H80000000", "1", "0", "0", "0",
       "100", "100", "0", "0", "1", "2", "0", "2", "20", "20", "86", "1"]
  {
    assert NatToDecimal(2) == "2" && NatToDecimal(54) == "54" && NatToDecimal(86) == "86";
    assert NatToDecimal(20) == "20" && NatToDecimal(100) == "100";
  }

  // ---------------------------------------------------------------------
  // Events and the whole file
  // ---------------------------------------------------------------------

  /** The event of one segment, in the `Default` style. */
  function DialogueLine(seg: Segment, style: StyleConfig): string {
    EventLine(SecondsToAssTime(seg.start), SecondsToAssTime(seg.end), StyledText(seg, style))
  }

  /** The events of a segment list, in order. */
  function DialogueLines(segs: seq<Segment>, style: StyleConfig): seq<string>
  {
    Map(segs, seg => DialogueLine(seg, style))
  }

  /** One event per segment, the `i`-th for segment `i`. */
  lemma DialogueLinesAt(segs: seq<Segment>, style: StyleConfig)
    ensures |DialogueLines(segs, style)| == |segs|
    ensures forall i :: 0 <= i < |segs| ==> DialogueLines(segs, style)[i] == DialogueLine(segs[i], style)
  {
    MapAt(segs, seg => DialogueLine(seg, style));
  }

  /** The file for a non-empty segment list. */
  function AssContent(segs: seq<Segment>, width: int, height: int, style: StyleConfig): string {
    Document(RendererTitle(style),
      RendererStyles(style, FontSize(height, style), MarginSide, MarginBottom(height, style)),
      DialogueLines(segs, style))
  }

  /** The event loop of the renderer: times, styled text and event line per segment. */
  method RenderDialogues(segs: seq<Segment>, style: StyleConfig) returns (lines: seq<string>)
    ensures lines == DialogueLines(segs, style)
  {
    lines := [];
    for i := 0 to |segs|
      invariant lines == DialogueLines(segs[..i], style)
    {
      var startTime := SecondsToAssTime(segs[i].start);
      var endTime := SecondsToAssTime(segs[i].end);
      var styledText := CreateStyledText(segs[i], style);
      assert segs[..i + 1][..i] == segs[..i];
      lines := lines + [EventLine(startTime, endTime, styledText)];
    }
    assert segs[..|segs|] == segs;
  }

  /** The sizes, the header, then the events joined by newlines. */
  method GenerateAssContent(segs: seq<Segment>, width: int, height: int, style: StyleConfig)
    returns (content: string)
    ensures content == AssContent(segs, width, height, style)
  {
    var fontSize := ScaledSize(height, style.fontSizeRatio, 16);
    var marginBottom := ScaledSize(height, style.marginRatio, 20);
    var marginSide := 20;
    var header := RendererHeader(fontSize, marginSide, marginBottom, style);
    var lines := RenderDialogues(segs, style);
    content := header + Join(lines, "\n");
  }

  // ---------------------------------------------------------------------
  // The fallback file
  // ---------------------------------------------------------------------

  /** The fallback's one style: the style's font and colours, but outline and alignment fixed at 2. */
  function EmptyRecord(style: StyleConfig, fontSize: int, marginBottom: int): StyleRecord {
    StyleRecord("Default", style.fontFamily, fontSize, style.baseColor, style.baseColor,
      style.outlineColor, "&H80000000", 100, 100, 2, 2, 20, 20, marginBottom)
  }

  /**
   * `_generate_empty_ass_file`: a one-style header and the fallback event,
   * newline-terminated, which is the document of that event and an empty
   * last line.
   */
  function EmptyAssFile(style: StyleConfig, width: int, height: int): string {
    Document("Subtitle Ninja", [EmptyRecord(style, FontSize(height, style), MarginBottom(height, style))],
      [NoSpeechEvent, ""])
  }

  /** The fallback event is the ordinary event line for 0 s to 5 s. */
  lemma NoSpeechEventIsEvent()
    ensures NoSpeechEvent == EventLine(SecondsToAssTime(0.0), SecondsToAssTime(5.0), "No speech detected")
  {
    AssTimeExamples();
    FiveSecondTimes();
  }

  /** What `render_subtitles` writes: the fallback for no segments, else the full file. */
  function RenderedContent(segs: seq<Segment>, width: int, height: int, style: StyleConfig): string {
    if |segs| == 0 then EmptyAssFile(style, width, height) else AssContent(segs, width, height, style)
  }

  // ---------------------------------------------------------------------
  // Reading the file back line by line
  // ---------------------------------------------------------------------

  /** The style's strings that reach the file hold no line break. */
  predicate StyleSingleLine(style: StyleConfig) {
    '\n' !in style.fontFamily && '\n' !in style.baseColor && '\n' !in style.highlightColor &&
    '\n' !in style.outlineColor && '\n' !in style.backgroundColor
  }

  /** A segment's words and display text hold no line break. */
  predicate SegmentSingleLine(seg: Segment) {
    (seg.words.Some? ==> forall i :: 0 <= i < |seg.words.value| ==> '\n' !in seg.words.value[i]) &&
    (seg.displayText.Some? ==> '\n' !in seg.displayText.value)
  }

  lemma RendererStylesSingle(style: StyleConfig, fontSize: int, marginSide: int, marginBottom: int)
    requires StyleSingleLine(style)
    ensures '\n' !in RendererTitle(style)
    ensures var records := RendererStyles(style, fontSize, marginSide, marginBottom);
      forall i :: 0 <= i < |records| ==> RecordSingleLine(records[i])
  {
  }

  lemma ColorTagsSingle(style: StyleConfig)
    requires StyleSingleLine(style)
    ensures '\n' !in ColorTags(style).open && '\n' !in ColorTags(style).close
  {
  }

  lemma ScaleOpenSingle(style: StyleConfig)
    requires StyleSingleLine(style)
    ensures '\n' !in ScaleOpen(style)
  {
    FormatIntHasNo(HighlightScale(style), 0, '\n');
  }

  lemma ScaleCloseSingle(style: StyleConfig)
    requires StyleSingleLine(style)
    ensures '\n' !in ScaleClose(style)
  {
  }

  lemma ScaleTagsSingle(style: StyleConfig)
    requires StyleSingleLine(style)
    ensures '\n' !in ScaleTags(style).open && '\n' !in ScaleTags(style).close
  {
    ScaleOpenSingle(style);
    ScaleCloseSingle(style);
  }

  lemma GlowOpenSingle(style: StyleConfig)
    requires StyleSingleLine(style)
    ensures '\n' !in GlowOpen(style)
  {
    FormatIntHasNo(style.outlineWidth, 0, '\n');
    FormatIntHasNo(if style.glowIntensity == "strong" then 3 else 2, 0, '\n');
  }

  lemma GlowCloseSingle(style: StyleConfig)
    requires StyleSingleLine(style)
    ensures '\n' !in GlowClose(style)
  {
  }

  lemma GlowTagsSingle(style: StyleConfig)
    requires StyleSingleLine(style)
    ensures '\n' !in GlowTags(style).open && '\n' !in GlowTags(style).close
  {
    GlowOpenSingle(style);
    GlowCloseSingle(style);
  }

  lemma BackgroundTagsSingle(style: StyleConfig)
    requires StyleSingleLine(style)
    ensures '\n' !in BackgroundTags(style).open && '\n' !in BackgroundTags(style).close
  {
  }

  lemma HighlightTagsSingle(style: StyleConfig)
    requires StyleSingleLine(style)
    ensures '\n' !in HighlightTags(style).open && '\n' !in HighlightTags(style).close
  {
    ColorTagsSingle(style);
    ScaleTagsSingle(style);
    GlowTagsSingle(style);
    BackgroundTagsSingle(style);
  }

  lemma StyledTextSingle(seg: Segment, style: StyleConfig)
    requires StyleSingleLine(style) && SegmentSingleLine(seg)
    ensures '\n' !in StyledText(seg, style)
  {
    var words := seg.words.GetOr([]);
    if |words| > 0 {
      HighlightTagsSingle(style);
      var parts := StyledParts(words, style);
      assert forall i :: 0 <= i < |parts| ==> '\n' !in parts[i];
      JoinHasNo(parts, " ", '\n');
    }
  }

  lemma DialogueLineSingle(seg: Segment, style: StyleConfig)
    requires StyleSingleLine(style) && SegmentSingleLine(seg)
    ensures '\n' !in DialogueLine(seg, style)
  {
    TimestampCharacters(seg.start);
    TimestampCharacters(seg.end);
    StyledTextSingle(seg, style);
    EventLineSingle(SecondsToAssTime(seg.start), SecondsToAssTime(seg.end), StyledText(seg, style));
  }

  /** Each segment's event is a single `Dialogue:` line. */
  lemma DialogueLinesSingle(segs: seq<Segment>, style: StyleConfig)
    requires StyleSingleLine(style)
    requires forall i :: 0 <= i < |segs| ==> SegmentSingleLine(segs[i])
    ensures forall i :: 0 <= i < |DialogueLines(segs, style)| ==> '\n' !in DialogueLines(segs, style)[i]
  {
    var events := DialogueLines(segs, style);
    DialogueLinesAt(segs, style);
    forall i | 0 <= i < |events|
      ensures '\n' !in events[i]
    {
      DialogueLineSingle(segs[i], style);
    }
  }

  /**
   * A rendered file splits at line breaks into exactly the header lines
   * (the two styles among them) followed by one event line per segment,
   * in segment order.
   */
  lemma AssContentLines(segs: seq<Segment>, width: int, height: int, style: StyleConfig)
    requires |segs| > 0
    requires StyleSingleLine(style)
    requires forall i :: 0 <= i < |segs| ==> SegmentSingleLine(segs[i])
    ensures Split(AssContent(segs, width, height, style), '\n') ==
      HeaderLines(RendererTitle(style),
        RendererStyles(style, FontSize(height, style), MarginSide, MarginBottom(height, style))) +
      DialogueLines(segs, style)
  {
    DialogueLinesAt(segs, style);
    DialogueLinesSingle(segs, style);
    RendererStylesSingle(style, FontSize(height, style), MarginSide, MarginBottom(height, style));
    DocumentLines(RendererTitle(style),
      RendererStyles(style, FontSize(height, style), MarginSide, MarginBottom(height, style)),
      DialogueLines(segs, style));
  }

  /** Every event line is a `Dialogue:` line and none is a `Style:` line. */
  lemma DialogueCounts(segs: seq<Segment>, style: StyleConfig)
    ensures CountWithPrefix(DialogueLines(segs, style), "Dialogue: ") == |segs|
    ensures CountWithPrefix(DialogueLines(segs, style), "Style: ") == 0
  {
    var events := DialogueLines(segs, style);
    DialogueLinesAt(segs, style);
    forall i | 0 <= i < |events|
      ensures "Dialogue: " <= events[i] && !("Style: " <= events[i])
    {
      EventLineKind(SecondsToAssTime(segs[i].start), SecondsToAssTime(segs[i].end),
                    StyledText(segs[i], style));
    }
    CountWithPrefixAll(events, "Dialogue: ");
    CountWithPrefixNone(events, "Style: ");
  }

  /** A rendered file has the two style lines and exactly one event line per segment. */
  lemma AssContentCounts(segs: seq<Segment>, width: int, height: int, style: StyleConfig)
    requires |segs| > 0
    requires StyleSingleLine(style)
    requires forall i :: 0 <= i < |segs| ==> SegmentSingleLine(segs[i])
    ensures CountWithPrefix(Split(AssContent(segs, width, height, style), '\n'), "Style: ") == 2
    ensures CountWithPrefix(Split(AssContent(segs, width, height, style), '\n'), "Dialogue: ") == |segs|
  {
    DialogueLinesAt(segs, style);
    DialogueLinesSingle(segs, style);
    DialogueCounts(segs, style);
    RendererStylesSingle(style, FontSize(height, style), MarginSide, MarginBottom(height, style));
    DocumentCounts(RendererTitle(style),
      RendererStyles(style, FontSize(height, style), MarginSide, MarginBottom(height, style)),
      DialogueLines(segs, style));
  }

  /**
   * The fallback file splits into its one-style header, its one event and
   * the empty rest after the final break: one style line, one event line.
   */
  lemma EmptyFileLines(style: StyleConfig, width: int, height: int)
    requires StyleSingleLine(style)
    ensures var record := EmptyRecord(style, FontSize(height, style), MarginBottom(height, style));
      var lines := Split(EmptyAssFile(style, width, height), '\n');
      lines == HeaderLines("Subtitle Ninja", [record]) + [NoSpeechEvent, ""] &&
      CountWithPrefix(lines, "Style: ") == 1 && CountWithPrefix(lines, "Dialogue: ") == 1
  {
    var record := EmptyRecord(style, FontSize(height, style), MarginBottom(height, style));
    FallbackDocumentLines(record);
  }

  /** A fallback document of one style, read back at newlines. */
  lemma FallbackDocumentLines(record: StyleRecord)
    requires RecordSingleLine(record)
    ensures var lines := Split(Document("Subtitle Ninja", [record], [NoSpeechEvent, ""]), '\n');
      lines == HeaderLines("Subtitle Ninja", [record]) + [NoSpeechEvent, ""] &&
      CountWithPrefix(lines, "Style: ") == 1 && CountWithPrefix(lines, "Dialogue: ") == 1
  {
    NoSpeechEventLine();
    assert forall i :: 0 <= i < |[record]| ==> RecordSingleLine([record][i]);
    SingleEventDocument("Subtitle Ninja", [record], NoSpeechEvent);
  }

  /**
   * Whatever `render_subtitles` writes holds one event per segment, or the
   * single fallback event when there are none.
   */
  lemma RenderedEventCount(segs: seq<Segment>, width: int, height: int, style: StyleConfig)
    requires StyleSingleLine(style)
    requires forall i :: 0 <= i < |segs| ==> SegmentSingleLine(segs[i])
    ensures CountWithPrefix(Split(RenderedContent(segs, width, height, style), '\n'), "Dialogue: ") ==
      if |segs| == 0 then 1 else |segs|
    ensures CountWithPrefix(Split(RenderedContent(segs, width, height, style), '\n'), "Style: ") ==
      if |segs| == 0 then 1 else 2
  {
    if |segs| == 0 {
      EmptyFileLines(style, width, height);
    } else {
      AssContentCounts(segs, width, height, style);
    }
  }
}
