/**
 * The SubRip (SRT) file the video processor writes for the grouped
 * segments: one numbered cue per segment that has text, numbered by the
 * segment's 1-based position, each cue its number, its time range, its
 * text and an empty line, all joined by newlines.
 */
module SrtFile {
  import opened Wrappers
  import opened Text
  import opened TimeFormat
  import opened WordGrouper

  /**
   * The text of a segment's cue: its stripped display text; when that is
   * blank, its stripped joined words if it has a word list, or else its
   * stripped text field if it has one.
   */
  function CueText(seg: Segment): string {
    var display := Strip(seg.displayText.GetOr(""));
    if display != "" then display
    else if seg.words.Some? then Strip(Join(seg.words.value, " "))
    else if seg.text.Some? then Strip(seg.text.value)
    else ""
  }

  /** The four lines of a cue: number, time range, text and the blank separator. */
  function Cue(number: nat, start: string, end: string, text: string): seq<string> {
    [NatToDecimal(number), start + " --> " + end, text, ""]
  }

  /** The cue a segment gets at a given number. */
  function SegmentCue(number: nat, seg: Segment): seq<string> {
    Cue(number, SecondsToSrtTime(seg.start), SecondsToSrtTime(seg.end), CueText(seg))
  }

  /** The lines for the segments, the last one numbered `|segs|` and left out when its text is empty. */
  function SrtLines(segs: seq<Segment>): seq<string>
    decreases |segs|
  {
    if |segs| == 0 then []
    else
      var last := segs[|segs| - 1];
      SrtLines(segs[..|segs| - 1]) + (if CueText(last) != "" then SegmentCue(|segs|, last) else [])
  }

  /**
   * The file written when there are no segments,
   * `"1\n00:00:00,000 --> 00:00:05,000\nNo speech detected\n\n"`, spelled
   * out piece by piece.
   */
  const SrtFallback := "1" + "\n" + "00:00:00,000" + " --> " + "00:00:05,000" + "\n" + "No speech detected" +
    "\n" + "\n"

  /** `create_srt_file_from_segments`: the fallback for no segments, else the cue lines joined by newlines. */
  function SrtContent(segs: seq<Segment>): string {
    if |segs| == 0 then SrtFallback else Join(SrtLines(segs), "\n")
  }

  /** The cue loop of `create_srt_file_from_segments`. */
  method CreateSrtContent(segs: seq<Segment>) returns (content: string)
    ensures content == SrtContent(segs)
  {
    if |segs| == 0 {
      return SrtFallback;
    }
    var srtLines: seq<string> := [];
    for i := 0 to |segs|
      invariant srtLines == SrtLines(segs[..i])
    {
      var startTime := SecondsToSrtTime(segs[i].start);
      var endTime := SecondsToSrtTime(segs[i].end);
      var text := CueText(segs[i]);
      assert segs[..i + 1][..i] == segs[..i];
      if text != "" {
        srtLines := srtLines + [NatToDecimal(i + 1), startTime + " --> " + endTime, text, ""];
      }
    }
    assert segs[..|segs|] == segs;
    content := Join(srtLines, "\n");
  }

  // ---------------------------------------------------------------------
  // Cue text
  // ---------------------------------------------------------------------

  /** A cue's text is stripped: no whitespace at either end, and stripping it again changes nothing. */
  lemma CueTextTrimmed(seg: Segment)
    ensures var t := CueText(seg);
      Strip(t) == t && (|t| > 0 ==> !IsSpace(t[0]) && !IsSpace(t[|t| - 1]))
  {
    var display := seg.displayText.GetOr("");
    StripTrimmed(display);
    if Strip(display) == "" {
      if seg.words.Some? {
        StripTrimmed(Join(seg.words.value, " "));
      } else if seg.text.Some? {
        StripTrimmed(seg.text.value);
      }
    }
  }

  /**
   * The display text wins whenever it is not blank; a blank one falls back
   * to the words and, only when there is no word list at all, to the text.
   */
  lemma CueTextChoice(seg: Segment)
    ensures (exists k :: 0 <= k < |seg.displayText.GetOr("")| && !IsSpace(seg.displayText.GetOr("")[k])) ==>
      CueText(seg) == Strip(seg.displayText.GetOr(""))
    ensures (forall k :: 0 <= k < |seg.displayText.GetOr("")| ==> IsSpace(seg.displayText.GetOr("")[k])) ==>
      CueText(seg) == (if seg.words.Some? then Strip(Join(seg.words.value, " "))
                       else if seg.text.Some? then Strip(seg.text.value) else "")
  {
    StripEmptyIffBlank(seg.displayText.GetOr(""));
  }

  /** The characters a segment's cue text may come from hold no line break. */
  predicate SrtSingleLine(seg: Segment) {
    (seg.words.Some? ==> forall i :: 0 <= i < |seg.words.value| ==> '\n' !in seg.words.value[i]) &&
    (seg.displayText.Some? ==> '\n' !in seg.displayText.value) &&
    (seg.text.Some? ==> '\n' !in seg.text.value)
  }

  lemma CueTextSingle(seg: Segment)
    requires SrtSingleLine(seg)
    ensures '\n' !in CueText(seg)
  {
    StripHasNo(seg.displayText.GetOr(""), '\n');
    if seg.words.Some? {
      JoinHasNo(seg.words.value, " ", '\n');
      StripHasNo(Join(seg.words.value, " "), '\n');
    }
    if seg.text.Some? {
      StripHasNo(seg.text.value, '\n');
    }
  }

  // ---------------------------------------------------------------------
  // Cue numbering
  // ---------------------------------------------------------------------

  /** The 0-based positions of the segments that get a cue, in order. */
  function Kept(segs: seq<Segment>): seq<nat>
    decreases |segs|
  {
    if |segs| == 0 then []
    else Kept(segs[..|segs| - 1]) + (if CueText(segs[|segs| - 1]) != "" then [|segs| - 1] else [])
  }

  /** `kept` lists, ascending, exactly the positions of the segments with non-empty cue text. */
  predicate KeptExactly(kept: seq<nat>, segs: seq<Segment>) {
    (forall k :: 0 <= k < |kept| ==> kept[k] < |segs| && CueText(segs[kept[k]]) != "") &&
    (forall k, l :: 0 <= k < l < |kept| ==> kept[k] < kept[l]) &&
    (forall i :: 0 <= i < |segs| && CueText(segs[i]) != "" ==> i in kept)
  }

  lemma KeptSkip(kept: seq<nat>, init: seq<Segment>, last: Segment)
    requires KeptExactly(kept, init) && CueText(last) == ""
    ensures KeptExactly(kept, init + [last])
  {
    var segs := init + [last];
    assert forall i :: 0 <= i < |init| ==> segs[i] == init[i];
  }

  lemma KeptAdd(kept: seq<nat>, init: seq<Segment>, last: Segment)
    requires KeptExactly(kept, init) && CueText(last) != ""
    ensures KeptExactly(kept + [|init|], init + [last])
  {
    var segs := init + [last];
    assert forall i :: 0 <= i < |init| ==> segs[i] == init[i];
  }

  /** The kept positions are exactly the segments with non-empty cue text, ascending. */
  lemma {:induction false} KeptPositions(segs: seq<Segment>)
    ensures KeptExactly(Kept(segs), segs)
    decreases |segs|
  {
    if |segs| > 0 {
      var init := segs[..|segs| - 1];
      var last := segs[|segs| - 1];
      KeptPositions(init);
      assert init + [last] == segs;
      if CueText(last) != "" {
        assert Kept(segs) == Kept(init) + [|init|];
        KeptAdd(Kept(init), init, last);
      } else {
        assert Kept(segs) == Kept(init);
        KeptSkip(Kept(init), init, last);
      }
    }
  }

  /** `lines` is the concatenation of the four-line `cues`. */
  predicate Blocks(lines: seq<string>, cues: seq<seq<string>>) {
    |lines| == 4 * |cues| && forall k :: 0 <= k < |cues| ==> lines[4 * k..4 * k + 4] == cues[k]
  }

  lemma BlocksAdd(lines: seq<string>, cues: seq<seq<string>>, cue: seq<string>)
    requires Blocks(lines, cues) && |cue| == 4
    ensures Blocks(lines + cue, cues + [cue])
  {
    var all := lines + cue;
    var cues' := cues + [cue];
    forall k | 0 <= k < |cues'|
      ensures all[4 * k..4 * k + 4] == cues'[k]
    {
      if k < |cues| {
        assert all[4 * k..4 * k + 4] == lines[4 * k..4 * k + 4];
      } else {
        assert all[4 * k..4 * k + 4] == cue;
      }
    }
  }

  /** The cues of the segments that get one, in order. */
  function Cues(segs: seq<Segment>): seq<seq<string>>
    decreases |segs|
  {
    if |segs| == 0 then []
    else
      var last := segs[|segs| - 1];
      Cues(segs[..|segs| - 1]) + (if CueText(last) != "" then [SegmentCue(|segs|, last)] else [])
  }

  lemma {:induction false} SrtLinesBlocks(segs: seq<Segment>)
    ensures Blocks(SrtLines(segs), Cues(segs))
    decreases |segs|
  {
    if |segs| > 0 {
      var init := segs[..|segs| - 1];
      var last := segs[|segs| - 1];
      SrtLinesBlocks(init);
      if CueText(last) != "" {
        BlocksAdd(SrtLines(init), Cues(init), SegmentCue(|segs|, last));
      }
    }
  }

  /** `cues[k]` is the cue of segment `kept[k]`, numbered by its 1-based position. */
  predicate CuesOfKept(cues: seq<seq<string>>, kept: seq<nat>, segs: seq<Segment>) {
    |cues| == |kept| &&
    forall k :: 0 <= k < |kept| ==> kept[k] < |segs| && cues[k] == SegmentCue(kept[k] + 1, segs[kept[k]])
  }

  lemma CuesSkip(cues: seq<seq<string>>, kept: seq<nat>, init: seq<Segment>, last: Segment)
    requires CuesOfKept(cues, kept, init)
    ensures CuesOfKept(cues, kept, init + [last])
  {
    var segs := init + [last];
    forall k | 0 <= k < |kept|
      ensures segs[kept[k]] == init[kept[k]]
    {
    }
  }

  lemma CuesAdd(cues: seq<seq<string>>, kept: seq<nat>, init: seq<Segment>, last: Segment)
    requires CuesOfKept(cues, kept, init)
    ensures CuesOfKept(cues + [SegmentCue(|init| + 1, last)], kept + [|init|], init + [last])
  {
    var segs := init + [last];
    forall k | 0 <= k < |kept|
      ensures segs[kept[k]] == init[kept[k]]
    {
    }
  }

  lemma {:induction false} CuesPositions(segs: seq<Segment>)
    ensures CuesOfKept(Cues(segs), Kept(segs), segs)
    decreases |segs|
  {
    if |segs| > 0 {
      var init := segs[..|segs| - 1];
      var last := segs[|segs| - 1];
      CuesPositions(init);
      assert init + [last] == segs;
      if CueText(last) != "" {
        CuesAdd(Cues(init), Kept(init), init, last);
      } else {
        CuesSkip(Cues(init), Kept(init), init, last);
      }
    }
  }

  /** `lines` holds, in blocks of four, the cues of the `kept` segments numbered by their 1-based positions. */
  predicate CueBlocks(lines: seq<string>, segs: seq<Segment>, kept: seq<nat>) {
    |lines| == 4 * |kept| &&
    forall k :: 0 <= k < |kept| ==>
      kept[k] < |segs| && lines[4 * k..4 * k + 4] == SegmentCue(kept[k] + 1, segs[kept[k]])
  }

  /**
   * The cue lines come in blocks of four, one per kept segment in order,
   * each numbered by that segment's 1-based position in the input.
   */
  lemma SrtBlocks(segs: seq<Segment>)
    ensures CueBlocks(SrtLines(segs), segs, Kept(segs))
  {
    SrtLinesBlocks(segs);
    CuesPositions(segs);
  }

  /** Non-empty input whose every cue text is blank gives an empty file, not the fallback. */
  lemma AllBlankIsEmpty(segs: seq<Segment>)
    requires |segs| > 0
    requires forall i :: 0 <= i < |segs| ==> CueText(segs[i]) == ""
    ensures SrtContent(segs) == ""
  {
    NoCueKeepsNothing(segs);
  }

  lemma {:induction false} NoCueKeepsNothing(segs: seq<Segment>)
    requires forall i :: 0 <= i < |segs| ==> CueText(segs[i]) == ""
    ensures Kept(segs) == [] && SrtLines(segs) == []
    decreases |segs|
  {
    if |segs| > 0 {
      NoCueKeepsNothing(segs[..|segs| - 1]);
    }
  }

  /** A cue's lines joined: number, time range and text, each ended by a line break. */
  lemma CueJoin(number: nat, start: string, end: string, text: string)
    ensures Join(Cue(number, start, end, text), "\n") ==
      NatToDecimal(number) + "\n" + start + " --> " + end + "\n" + text + "\n"
  {
    var range := start + " --> " + end;
    assert Cue(number, start, end, text) == [NatToDecimal(number)] + [range, text, ""];
    JoinCons(NatToDecimal(number), [range, text, ""], "\n");
    assert [range, text, ""] == [range] + [text, ""];
    JoinCons(range, [text, ""], "\n");
    assert [text, ""] == [text] + [""];
    JoinCons(text, [""], "\n");
  }

  /** The fallback file is the cue for 0 s to 5 s, numbered 1, followed by one more line break. */
  lemma SrtFallbackIsCue()
    ensures SrtFallback ==
      Join(Cue(1, SecondsToSrtTime(0.0), SecondsToSrtTime(5.0), "No speech detected"), "\n") + "\n"
  {
    SrtTimeExamples();
    FiveSecondTimes();
    assert NatToDecimal(1) == "1";
    CueJoin(1, SecondsToSrtTime(0.0), SecondsToSrtTime(5.0), "No speech detected");
  }

  /** No line of a cue breaks, when its segment's texts do not. */
  lemma SegmentCueSingle(number: nat, seg: Segment)
    requires SrtSingleLine(seg)
    ensures forall i :: 0 <= i < 4 ==> '\n' !in SegmentCue(number, seg)[i]
  {
    CueTextSingle(seg);
    TimestampCharacters(seg.start);
    TimestampCharacters(seg.end);
    DigitsHaveNoBreak(NatToDecimal(number));
  }

  lemma BlockLine(lines: seq<string>, from: nat, j: nat)
    requires from <= j < from + 4 <= |lines|
    ensures lines[j] == lines[from..from + 4][j - from]
  {
  }

  /** Line `j` of a block holding a segment's cue does not break. */
  lemma BlockLineSingle(lines: seq<string>, k: nat, j: nat, number: nat, seg: Segment)
    requires 4 * k <= j < 4 * k + 4 <= |lines|
    requires lines[4 * k..4 * k + 4] == SegmentCue(number, seg) && SrtSingleLine(seg)
    ensures '\n' !in lines[j]
  {
    BlockLine(lines, 4 * k, j);
    CueLineSingle(lines[4 * k..4 * k + 4], number, seg, j - 4 * k);
  }

  lemma CueLineSingle(cue: seq<string>, number: nat, seg: Segment, i: nat)
    requires SrtSingleLine(seg) && cue == SegmentCue(number, seg) && i < 4
    ensures '\n' !in cue[i]
  {
    SegmentCueSingle(number, seg);
  }

  lemma QuarterBounds(j: nat)
    ensures 4 * (j / 4) <= j < 4 * (j / 4) + 4
  {
  }

  /** No line of the blocks breaks. */
  lemma CueBlocksSingle(lines: seq<string>, segs: seq<Segment>, kept: seq<nat>)
    requires CueBlocks(lines, segs, kept)
    requires forall i :: 0 <= i < |segs| ==> SrtSingleLine(segs[i])
    ensures forall j :: 0 <= j < |lines| ==> '\n' !in lines[j]
  {
    forall j | 0 <= j < |lines|
      ensures '\n' !in lines[j]
    {
      QuarterBounds(j);
      var k := j / 4;
      BlockLineSingle(lines, k, j, kept[k] + 1, segs[kept[k]]);
    }
  }

  /**
   * A file with at least one cue reads back, line by line, as exactly its
   * cue lines.
   */
  lemma SrtContentLines(segs: seq<Segment>)
    requires |segs| > 0
    requires forall i :: 0 <= i < |segs| ==> SrtSingleLine(segs[i])
    requires |Kept(segs)| > 0
    ensures Split(SrtContent(segs), '\n') == SrtLines(segs)
  {
    var lines := SrtLines(segs);
    SrtBlocks(segs);
    CueBlocksSingle(lines, segs, Kept(segs));
    assert "\n" == ['\n'];
    SplitJoin(lines, '\n');
  }

  lemma DigitsHaveNoBreak(s: string)
    requires IsDigits(s)
    ensures '\n' !in s
  {
    assert forall ch :: ch in s ==> IsDigit(ch);
  }
}
