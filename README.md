# Subtitle pipeline core, modelled in Dafny

This project models the caption core of a video-subtitling service. The service
transcribes speech and writes subtitles in the Advanced SubStation Alpha format
(ASS, `ScriptType: v4.00+`) or in SubRip (SRT). The model covers:

- **The word grouper** (`word_grouper.dfy`, module `WordGrouper`). It first
  flattens the recogniser's phrases into one list of timed words, with texts
  stripped. It then builds a sliding window with one display segment per word.
  Each segment shows up to three words from that word on. It starts at the
  word's onset and ends at the next word's onset, or at the word's own end for
  the last word.
- **The time encoders** (`time_format.dfy`, module `TimeFormat`). They produce
  ASS `H:MM:SS.cc` and SRT `HH:MM:SS,mmm`, using floor division, floored
  modulo and truncation as Python does. They are proved against a parser of
  their own output.
- **The style model** (`style_config.dfy`, module `Styles`). It holds the
  `StyleConfig` record and its defaults, the closed preset table with its
  fallback, the preset list and preset descriptions, and the
  `#RRGGBB` ↔ `&HBBGGRR` colour conversions.
- **The ASS format** (`ass_format.dfy`, module `AssFormat`). It builds the
  `Style:` and `Dialogue:` records and the document layout shared by every
  ASS builder, and proves that a document reads back line by line and field by
  field.
- **The styled renderer** (`ass_renderer.dfy`, module `AssRenderer`). It sizes
  text from the video height and writes the header with its `Default` and
  `Highlight` styles. It marks the first word up with the tags of one of five
  highlight effects, writes one `Dialogue:` event per segment, and has a
  placeholder file for empty input.
- **The older single-style builders** (`video_processor.dfy`, module
  `VideoProcessor`). These are the classic gold-on-white ASS builder and its
  fallback file. The model proves how they relate to the renderer.
- **The SRT builder** (`srt_file.dfy`, module `SrtFile`). It numbers cues by
  their position in the segment list and skips segments whose text is blank.
- **Helpers** (`text.dfy`, module `Text`; `wrappers.dfy`, module `Wrappers`).
  These are `split`/`join`, ASCII `strip`/`upper`, decimal formatting with zero
  padding and its parser, prefix counting, and an `Option` type.

Where the source appends to a list in a loop, the model has a method with that
loop. The method is proved equal to a specification function, and the
properties are proved about that function. Times and ratios are exact `real`
values.

## Model

| member | source | states |
|---|---|---|
| WordGrouper.FlattenTranscript | workflows/process_video.py:100-116 | The extraction loop yields, in order, every timed word of each phrase, text stripped, or the phrase itself when it has no word timings |
| WordGrouper.FlattenLayout | workflows/process_video.py:100-116 | Phrase k's words sit between those of the phrases before it and those after it, at offset WordCount of the phrases before |
| WordGrouper.FlattenLength | workflows/process_video.py:100-116 | The flattened list has one word per timed word, plus one per phrase without word timings |
| WordGrouper.FlattenStripped | workflows/process_video.py:100-116 | Every flattened text is already stripped |
| WordGrouper.Window | workflows/process_video.py:139-142 | The window at i has min(size, n - i) texts, the texts of words i, i+1, … in order, truncated and not padded at the end |
| WordGrouper.WordGroups | workflows/process_video.py:122-144 | Exactly one segment per input word, so empty input gives no segment |
| WordGrouper.CollectGroup | workflows/process_video.py:138-142 | The inner loop collects exactly the window of up to words_per_group texts from word i on |
| WordGrouper.CreateWordGroups | workflows/process_video.py:120-153 | The nested grouping loops build exactly the segment list WordGroups specifies |
| WordGrouper.WordGroupsShape | workflows/process_video.py:129-150 | Segment i starts at word i's onset and ends at word i+1's onset, or at word i's end for the last word. Its words are the window of min(size, n - i) texts. Its current word index is 0, its current word is the first text (or "" for an empty window) and its display text is the space-join of its words |
| WordGrouper.WordGroupsContiguous | workflows/process_video.py:132-136 | Each segment ends exactly where the next begins |
| WordGrouper.WordGroupsTile | workflows/process_video.py:129-136 | Together the segments last exactly from the first word's onset to the last word's end |
| WordGrouper.PrefixDuration | workflows/process_video.py:129-136 | The first k segments last from the first onset to word k's onset |
| WordGrouper.TranscriptToSegments | workflows/process_video.py:99-118 | Transcription after the recogniser is flattening and then grouping by three, giving one segment per word |
| TimeFormat.Trunc | workflows/process_video.py:383-386 | Python's int() on a number: the integer toward zero, within one of the argument |
| TimeFormat.HoursField | workflows/process_video.py:383 | int(t // 3600) is the floor of the whole seconds divided by 3600 |
| TimeFormat.MinutesField | workflows/process_video.py:384 | int((t % 3600) // 60) is the whole seconds modulo 3600, divided by 60 |
| TimeFormat.SecondsField | workflows/process_video.py:385 | int(t % 60) is the whole seconds modulo 60 |
| TimeFormat.FractionField | workflows/process_video.py:386-394 | int((t % 1) * u) for u = 100 or 1000 is floor(t·u) - u·floor(t), and it lies in 0..u-1 |
| TimeFormat.ClockOfDecomposes | workflows/process_video.py:381-395 | Minutes and seconds lie in 0..59 and the fraction in 0..u-1. 3600h + 60m + s is floor(t), and the fraction is the truncated sub-second part |
| TimeFormat.ClockOfUnits | workflows/process_video.py:381-395 | The fields together count exactly floor(t·u) units: h·3600·u + m·60·u + s·u + f == floor(t·u) |
| TimeFormat.TimestampRoundTrip | workflows/process_video.py:381-395 | A formatted clock parses back to its own count of units, for any hour and fraction widths and a separator other than a digit, ':' or '-' |
| TimeFormat.AssTimeRoundTrip | workflows/process_video.py:381-387 | Parsing the ASS time gives floor(t·100): the encoding loses exactly what lies below a centisecond |
| TimeFormat.SrtTimeRoundTrip | workflows/process_video.py:389-395 | Parsing the SRT time gives floor(t·1000) |
| TimeFormat.TimestampCharacters | workflows/process_video.py:381-395 | The ASS time holds only digits, '-', ':' and '.'; the SRT time holds only digits, '-', ':' and ',' |
| TimeFormat.SecondsToAssTime | workflows/process_video.py:381-387 | The ASS time of the truncated clock fields, hours unpadded. It has no contract of its own: its layout is AssTimeLayout and its read-back AssTimeRoundTrip |
| TimeFormat.SecondsToSrtTime | workflows/process_video.py:389-395 | The SRT time of the truncated clock fields, hours padded to two digits. It has no contract of its own: its layout is SrtTimeLayout and its read-back SrtTimeRoundTrip |
| TimeFormat.ClockLayout | workflows/process_video.py:381-395 | With fields in range, the hours field comes first. After it, in fixed places, are ':', two minute digits, ':', two second digits, the separator and exactly fracWidth fraction digits |
| TimeFormat.AssTimeLayout | workflows/process_video.py:381-387 | Minutes, seconds and centiseconds are exactly two digits each, at fixed offsets after the hours. For t ≥ 0 the hours have no leading zero unless the hour is 0; under ten hours the time is ten characters |
| TimeFormat.SrtTimeLayout | workflows/process_video.py:389-395 | From 0 s to under 100 hours the time is exactly twelve characters: ':' at 2 and 5, ',' at 8, digits everywhere else |
| Text.FormatIntWidth | workflows/process_video.py:387 | A `:02d` or `:03d` field of a number from 0 to below 10^w is exactly w digits wide |
| Text.FormatIntUnpadded | workflows/process_video.py:387 | A plain `{hours}` field is the shortest numeral. It has no leading zero unless the number is 0, and it is one character below 10 |
| TimeFormat.AssTimeExamples | workflows/process_video.py:381-387 | 0 s gives "0:00:00.00" and 3725.456 s gives "1:02:05.45": hours unpadded, fraction truncated |
| TimeFormat.SrtTimeExamples | workflows/process_video.py:389-395 | 0 s gives "00:00:00,000" and 3725.456 s gives "01:02:05,456": hours padded to two digits |
| TimeFormat.ExampleClocks | workflows/process_video.py:383-386 | The fields of 0 s and of 3725.456 s at both precisions |
| TimeFormat.FiveSecondTimes | workflows/process_video.py:381-395 | Five seconds encodes as "0:00:05.00" and "00:00:05,000", the placeholders' end times |
| Styles.GetPreset | workflows/style_config.py:45-121 | A listed name gives its table entry; every other name gives the default (instagram_classic) configuration |
| Styles.PresetCatalogConsistent | workflows/style_config.py:47-163 | The list has five distinct names, and its set is exactly the key set of the preset table and of the preset info |
| Styles.ListPresets | workflows/style_config.py:124-132 | The five names in their fixed order. It has no contract of its own: PresetCatalogConsistent proves them distinct and exactly the preset table's keys |
| Styles.GetPresetInfo | workflows/style_config.py:135-163 | One name, description and audience per preset, as written. It has no contract of its own: PresetCatalogConsistent proves its keys are exactly the preset table's |
| Styles.ClassicIsDefault | workflows/style_config.py:14-121 | instagram_classic equals the all-defaults configuration, and an unknown name falls back to it |
| Styles.PresetsUseDocumentedModes | workflows/style_config.py:24-118 | Every preset uses one of the four documented effects; every glow_pulse preset has the glow on at strong intensity |
| Styles.HexToAssColor | workflows/style_config.py:165-176 | Always eight characters starting "&H". A six-character body (after at most one '#') gives its byte pairs reversed; any other length gives "&Hffffff" |
| Styles.AssToHexColor | workflows/style_config.py:178-187 | Always seven characters starting '#'. A string starting "&H" with length 8 or more gives characters 2..8 with byte pairs reversed, upper-cased; anything else gives "#FFFFFF" |
| Styles.HexToAssIsAccepted | workflows/style_config.py:165-187 | The reverse conversion never falls back on a result of the forward one |
| Styles.HexRoundTrip | workflows/style_config.py:165-187 | Hex to ASS and back gives upper("#" + body) for a six-character body, with or without '#', and "#FFFFFF" otherwise |
| Styles.AssRoundTrip | workflows/style_config.py:165-187 | ASS to hex and back gives "&H" plus the six colour digits upper-cased |
| AssRenderer.ScaledSize | workflows/ass_renderer.py:33-36 | max(int(h·ratio), minimum) is at least the minimum and at least the truncated product, and equals one of them |
| AssRenderer.HighlightScale | workflows/ass_renderer.py:109-113 | The scale is 100 or 120, and it is 120 exactly for scale_up |
| AssRenderer.StyledParts | workflows/ass_renderer.py:78-105 | Part 0 is the first word between the effect's tags; every later part is its word verbatim |
| AssRenderer.CreateStyledText | workflows/ass_renderer.py:72-107 | The styling loop gives the display text (or "") for no words, and otherwise the space-join of the styled parts |
| AssRenderer.FallbackEffects | workflows/ass_renderer.py:82-102 | An unknown effect, and glow_pulse with the glow off, use exactly the color_change tags |
| AssRenderer.HighlightTags | workflows/ass_renderer.py:82-102 | The first word's tags for each effect. It has no contract of its own; ColorChangeTags, ScaleUpTags, GlowShadow, BackgroundHighlightTags and FallbackEffects state each branch |
| AssRenderer.ColorChangeTags | workflows/ass_renderer.py:84-85 | color_change opens with the highlight colour and closes with the base colour |
| AssRenderer.BackgroundHighlightTags | workflows/ass_renderer.py:96-99 | background_highlight opens with {\c base&\3c highlight&\bord6} and closes with {\3c outline&\bord2}, colours substituted |
| AssRenderer.ScaleUpTags | workflows/ass_renderer.py:86-87 | scale_up opens with \fscx120\fscy120 and the highlight colour, and closes with \fscx100\fscy100 and the base colour |
| AssRenderer.GlowShadow | workflows/ass_renderer.py:92-93 | A glow that is on uses the outline width as border and shadow 3 at strong intensity, else 2. It closes by resetting to \4c&H00000000&\bord2\shad0 |
| AssRenderer.StyledTextWrapsFirstWord | workflows/ass_renderer.py:78-107 | The styled text is the plain space-joined text with the tags inserted around its first word, and nothing else changed |
| AssRenderer.StyledTextTokens | workflows/ass_renderer.py:78-107 | With no spaces inside words or tags, the styled text splits at spaces into the wrapped first word followed by the other words unchanged |
| AssRenderer.GroupedStyledText | workflows/ass_renderer.py:72-107 | For a grouper segment, the event text is its display text with the tags around its current word |
| AssRenderer.HighlightRecordDiffers | workflows/ass_renderer.py:65-66 | The Highlight record is the Default record with another name, the highlight colour and the highlight scale. Both share the back colour |
| AssRenderer.ClassicSizes | workflows/ass_renderer.py:33-36 | At 1080 pixels the default style gets font size 54 and bottom margin 86 |
| AssRenderer.ClassicDefaultStyleFields | workflows/ass_renderer.py:65 | The values of the default configuration's Default record at 1080 pixels, written out |
| AssRenderer.DialogueLinesAt | workflows/ass_renderer.py:43-52 | One event line per segment, in segment order |
| AssRenderer.RenderDialogues | workflows/ass_renderer.py:43-52 | The dialogue loop builds exactly that list of event lines |
| AssRenderer.GenerateAssContent | workflows/ass_renderer.py:29-54 | The content is the header for the computed sizes followed by the newline-joined events |
| AssRenderer.RendererHeader | workflows/ass_renderer.py:56-70 | The header titled with the font, declaring the Default and Highlight records. It has no contract of its own; AssContentLines reads its lines back and HighlightRecordDiffers relates the two records |
| AssRenderer.NoSpeechEventIsEvent | workflows/ass_renderer.py:130 | The placeholder event is the event line from 0 s to 5 s reading "No speech detected" |
| AssRenderer.AssContentLines | workflows/ass_renderer.py:29-70 | With no line break in the style's font and colours or in any segment's words and display text, the content splits at newlines into the header's lines followed by exactly one event line per segment |
| AssRenderer.AssContentCounts | workflows/ass_renderer.py:29-70 | With no line break in the style's font and colours or in any segment's words and display text, a rendered file has exactly two Style lines and one Dialogue line per segment |
| AssRenderer.EmptyFileLines | workflows/ass_renderer.py:115-131 | With no line break in the style's font and colours, the fallback file reads back as a header with only the Default style, the one placeholder event and an empty rest |
| AssRenderer.EmptyAssFile | workflows/ass_renderer.py:115-131 | The fallback file: one style with the height-derived sizes, then the placeholder event. It has no contract of its own; EmptyFileLines reads it back |
| AssRenderer.FallbackDocumentLines | workflows/ass_renderer.py:120-131 | Any one-style fallback document whose record holds no line break reads back as its header, the placeholder event and an empty rest, with one Style line and one Dialogue line |
| AssRenderer.RenderedEventCount | workflows/ass_renderer.py:19-22 | With no line break in the style's font and colours or in any segment's words and display text, the chosen content holds one Dialogue line per segment, or the single placeholder event with one style when there are none |
| AssRenderer.RenderedContent | workflows/ass_renderer.py:19-22 | The fallback for no segments, otherwise the full file. It has no contract of its own; RenderedEventCount counts its events |
| AssFormat.EventLineJoin | workflows/ass_renderer.py:51 | The event f-string is "Dialogue: " followed by the ten event values joined by commas |
| AssFormat.EventLineFields | workflows/ass_renderer.py:51 | An event line has one value per declared event column. Read back at commas, its first nine values are the fixed ones and the times, and the rest, commas and all, is the text |
| AssFormat.StyleFieldsMatchFormat | workflows/ass_renderer.py:64-66 | A style record has one value per declared style column, and it reads back at commas when its names and colours hold none |
| AssFormat.DocumentLines | workflows/ass_renderer.py:54-70 | With no line break in the title, the records' names and colours or the events, header plus newline-joined events splits back into the header's lines followed by the events |
| AssFormat.DocumentCounts | workflows/ass_renderer.py:54-70 | With no line break in the title, the records' names and colours or the events, the Style lines of a document are its records and its Dialogue lines are those among its events |
| AssFormat.SingleEventDocument | workflows/ass_renderer.py:120-131 | With no line break in the title, the records or the event, a one-event document reads back as its header, the event and an empty rest. It has one Style line per record and one Dialogue line |
| VideoProcessor.HighlightedParts | workflows/process_video.py:356-362 | Part 0 is the first word between {\c&H00d7ff&} and {\c&Hffffff&}; the others pass through |
| VideoProcessor.CreateHighlightedAssText | workflows/process_video.py:349-364 | The highlighting loop gives the display text (or "") for no words, and otherwise the space-join of the parts |
| VideoProcessor.HighlightedIsDefaultStyled | workflows/process_video.py:349-364 | The legacy highlighting is exactly the renderer's styling under the default configuration |
| VideoProcessor.LegacyDialogues | workflows/process_video.py:336-345 | The legacy dialogue loop builds one event per segment, in order |
| VideoProcessor.GenerateAssContent | workflows/process_video.py:312-347 | The legacy content is its header for max(int(h·0.05), 20) points and a max(int(h·0.08), 30) margin, followed by the newline-joined events |
| VideoProcessor.LegacyStylesAreDefault | workflows/process_video.py:328-329 | The two legacy style records are the renderer's records for the default configuration |
| VideoProcessor.LegacyDialogueLinesAreDefault | workflows/process_video.py:336-345 | The legacy events are the renderer's events under the default configuration |
| VideoProcessor.TallVideoSizes | workflows/process_video.py:316-319 | From 400 pixels up, the legacy sizes equal the renderer's default sizes |
| VideoProcessor.SmallVideoSizes | workflows/process_video.py:316-319 | At 100 pixels the legacy builder uses 20 points and a 30-pixel margin, where the renderer uses 16 and 20 |
| VideoProcessor.LegacyIsRetitledDefault | workflows/process_video.py:312-347 | From 400 pixels up, the legacy file and the renderer's default file have the same styles and events and differ only in the title |
| VideoProcessor.LegacyFallbackShape | workflows/process_video.py:366-379 | The legacy fallback is the renderer's fallback shape at 24 points over a 50-pixel margin |
| VideoProcessor.LegacyEmptyAssFile | workflows/process_video.py:366-379 | The fixed fallback file. It has no contract of its own; LegacyFallbackShape and LegacyEmptyFileLines describe it |
| VideoProcessor.NoHeightGivesLegacyFallback | workflows/process_video.py:374 | No height gives the renderer that shape: 24 points needs a height below 500 and a 50-pixel margin needs one of at least 625 |
| VideoProcessor.LegacyAssContentCounts | workflows/process_video.py:312-347 | With no line break in any segment's words and display text, a legacy file reads back as its header and one event per segment: two Style lines and one Dialogue line per segment |
| VideoProcessor.LegacyEmptyFileLines | workflows/process_video.py:366-379 | The legacy fallback reads back with one Style line and one Dialogue line |
| VideoProcessor.LegacyEventCount | workflows/process_video.py:301-305 | With no line break in any segment's words and display text, the chosen legacy content holds one Dialogue line per segment, or the single placeholder when there are none |
| VideoProcessor.LegacyFileContent | workflows/process_video.py:301-305 | The legacy fallback for no segments, otherwise the legacy file. It has no contract of its own; LegacyEventCount counts its events |
| SrtFile.CreateSrtContent | workflows/process_video.py:266-290 | The SRT loop gives the fixed placeholder for no segments, and otherwise the newline-join of the cue lines |
| SrtFile.SrtContent | workflows/process_video.py:266-290 | The SRT file: the placeholder for no segments, otherwise the newline-join of the kept cues. It has no contract of its own; SrtBlocks, SrtContentLines and AllBlankIsEmpty state its shape |
| SrtFile.CueText | workflows/process_video.py:276-282 | A cue's text. It has no contract of its own; CueTextChoice states which field wins and CueTextTrimmed that it is stripped |
| SrtFile.CueTextTrimmed | workflows/process_video.py:276-282 | A cue's text never starts or ends with whitespace |
| SrtFile.CueTextChoice | workflows/process_video.py:276-282 | A non-blank display text wins. A blank one falls back to the joined words and, only when there is no word list, to the text field |
| SrtFile.KeptPositions | workflows/process_video.py:271-284 | The emitted cues belong to exactly the segments with non-blank text, in increasing order |
| SrtFile.SrtLinesBlocks | workflows/process_video.py:284-288 | The lines come in blocks of four: number, time range, text, empty line |
| SrtFile.CuesPositions | workflows/process_video.py:271-288 | Cue k is the cue of the k-th kept segment, numbered by its 1-based position in the segment list |
| SrtFile.SrtBlocks | workflows/process_video.py:266-290 | Four lines per kept segment; block k is numbered by its segment's position, so skipped segments use up numbers |
| SrtFile.AllBlankIsEmpty | workflows/process_video.py:284-290 | When every segment is blank, the content is the empty string, not the placeholder |
| SrtFile.SrtFallbackIsCue | workflows/process_video.py:268 | The placeholder is cue 1 from 0 s to 5 s reading "No speech detected", followed by a blank line |
| SrtFile.SrtContentLines | workflows/process_video.py:284-290 | With single-line texts and some cue kept, the content splits back at newlines into exactly the cue lines |

## Left out

- File writes, the `/tmp` paths, ffmpeg, the Whisper model, Celery and the HTTP
  API are plumbing. Each file-writing method is modelled as the content string it
  writes, and the recogniser's answer is an input (`TranscriptSegment`).
- `get_subtitle_config`, `create_subtitle_filter` and `parse_drawtext_filter`
  are not part of this model: the pipeline never calls them.
- Floating point: times and ratios are exact reals. Python's `int(h * 0.05)` or
  `int((t % 1) * 100)` can come out one lower than the exact value (e.g.
  `0.29 * 100`); the model states the exact truncation.
- `str.strip()` and `str.upper()` are modelled on ASCII only. `strip` removes
  exactly Python's ASCII whitespace, including the separators U+001C to U+001F.
  Non-ASCII whitespace, such as U+00A0 or U+2028, and non-ASCII case mapping
  are not modelled.
- Segment dictionaries are records with `Option` fields for the keys the
  builders probe (`words`, `display_text`, `text`). A key that is present but
  holds a non-string value, which Python would reject at run time, cannot occur.
- `width` is accepted and unused, as in the source. `font_weight`, `position`
  and `background_opacity` are carried in `StyleConfig` but never reach the
  output; `words_per_line` is not linked to the grouper, which always uses 3.
- The duplicate `_seconds_to_ass_time` of the renderer is the same function
  as `seconds_to_ass_time`, modelled once as `TimeFormat.SecondsToAssTime`.
- The multi-line header literals are modelled as their lines joined by newlines
  plus the final newline, which is the same string. The SRT placeholder
  literal is spelled as a concatenation of its lines.
- The line-by-line read-back and line counts of the ASS files (DocumentLines,
  DocumentCounts, SingleEventDocument, AssContentLines, AssContentCounts,
  EmptyFileLines, FallbackDocumentLines, RenderedEventCount,
  LegacyAssContentCounts, LegacyEventCount) are proved only when no line break
  occurs in segment texts and words, the title, style names, fonts or colours.
  The source does not check this: a text holding a newline followed by
  `Dialogue: ` gives two Dialogue lines for one segment.
- The SRT loop in `CreateSrtContent` appends a cue's four lines in one step
  where the source makes four appends; the resulting list is the same.
- TimeFormat.FractionField and the fraction lemmas are stated for 100 and 1000
  units per second only, the two precisions the encoders use.
- StylePresets' preset descriptions (`get_preset_info`) are modelled as a
  constant map; only their key set is proved (PresetCatalogConsistent).
