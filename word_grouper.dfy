/**
 * From a transcript to display segments. The transcript's phrases are
 * flattened into one list of timed words; the grouper then anchors one
 * segment at every word (a sliding window, not a partition): the segment
 * shows that word and the next few, starts at the word's onset and ends at
 * the next word's onset, so consecutive segments meet without overlapping.
 */
module WordGrouper {
  import opened Wrappers
  import opened Text

  /** A word of the transcript, times in seconds. */
  datatype Word = Word(start: real, end: real, text: string)

  /** A word as the speech recogniser reports it (text not yet stripped). */
  datatype TimedWord = TimedWord(start: real, end: real, word: string)

  /** A recognised phrase; `words` is absent when word timings are not available. */
  datatype TranscriptSegment = TranscriptSegment(
    start: real, end: real, text: string, words: Option<seq<TimedWord>>)

  /**
   * A display segment, as the subtitle builders read it. The keys those
   * builders probe with `get` or `in` (`words`, `display_text`, `text`) may
   * be missing and are options; the grouper fills all but `text`.
   */
  datatype Segment = Segment(
    start: real,
    end: real,
    words: Option<seq<string>>,
    currentWordIndex: int,
    currentWord: string,
    displayText: Option<string>,
    text: Option<string>)

  // ---------------------------------------------------------------------
  // Flattening the transcript
  // ---------------------------------------------------------------------

  /** How many words a phrase contributes: all its timed words (maybe none), else one. */
  function PhraseWordCount(seg: TranscriptSegment): nat {
    match seg.words
    case Some(ws) => |ws|
    case None => 1
  }

  /** A recognised word with its text stripped. */
  function StripWord(w: TimedWord): Word {
    Word(w.start, w.end, Strip(w.word))
  }

  /** The words one phrase contributes: its timed words, or the whole phrase as one word. */
  function PhraseWords(seg: TranscriptSegment): (r: seq<Word>)
    ensures |r| == PhraseWordCount(seg)
  {
    match seg.words
    case Some(ws) => seq(|ws|, j requires 0 <= j < |ws| => StripWord(ws[j]))
    case None => [Word(seg.start, seg.end, Strip(seg.text))]
  }

  /** The concatenation of a list of lists, in order. */
  function Concat<T>(parts: seq<seq<T>>): seq<T>
    decreases |parts|
  {
    if |parts| == 0 then [] else Concat(parts[..|parts| - 1]) + parts[|parts| - 1]
  }

  lemma {:induction false} ConcatAppend<T>(a: seq<seq<T>>, b: seq<seq<T>>)
    ensures Concat(a + b) == Concat(a) + Concat(b)
    decreases |b|
  {
    if |b| == 0 {
      assert a + b == a;
    } else {
      var front := b[..|b| - 1];
      assert (a + b)[..|a + b| - 1] == a + front;
      ConcatAppend(a, front);
    }
  }

  /** Each phrase's words, phrase by phrase. */
  function Phrases(transcript: seq<TranscriptSegment>): (r: seq<seq<Word>>)
    ensures |r| == |transcript|
    ensures forall i :: 0 <= i < |r| ==> r[i] == PhraseWords(transcript[i])
  {
    seq(|transcript|, i requires 0 <= i < |transcript| => PhraseWords(transcript[i]))
  }

  /** All words of the transcript, phrase by phrase. */
  function Flatten(transcript: seq<TranscriptSegment>): seq<Word> {
    Concat(Phrases(transcript))
  }

  function WordCount(transcript: seq<TranscriptSegment>): nat
    decreases |transcript|
  {
    if |transcript| == 0 then 0
    else WordCount(transcript[..|transcript| - 1]) + PhraseWordCount(transcript[|transcript| - 1])
  }

  /** Flattening distributes over concatenation of transcripts. */
  lemma FlattenConcat(a: seq<TranscriptSegment>, b: seq<TranscriptSegment>)
    ensures Flatten(a + b) == Flatten(a) + Flatten(b)
  {
    assert Phrases(a + b) == Phrases(a) + Phrases(b);
    ConcatAppend(Phrases(a), Phrases(b));
  }

  /** Flattening one more phrase appends its words. */
  lemma FlattenSnoc(transcript: seq<TranscriptSegment>, seg: TranscriptSegment)
    ensures Flatten(transcript + [seg]) == Flatten(transcript) + PhraseWords(seg)
  {
    FlattenConcat(transcript, [seg]);
    assert Phrases([seg]) == [PhraseWords(seg)];
    assert Concat([PhraseWords(seg)]) == Concat([PhraseWords(seg)][..0]) + PhraseWords(seg);
  }

  /**
   * The flattened list holds exactly the phrases' words in order: phrase
   * `k`'s words (timings kept, texts stripped) sit between the words of the
   * phrases before it and those after it.
   */
  lemma FlattenLayout(transcript: seq<TranscriptSegment>, k: nat)
    requires k < |transcript|
    ensures Flatten(transcript) ==
      Flatten(transcript[..k]) + PhraseWords(transcript[k]) + Flatten(transcript[k + 1..])
    ensures |Flatten(transcript[..k])| == WordCount(transcript[..k])
  {
    assert transcript == transcript[..k] + [transcript[k]] + transcript[k + 1..];
    FlattenConcat(transcript[..k] + [transcript[k]], transcript[k + 1..]);
    FlattenSnoc(transcript[..k], transcript[k]);
    FlattenLength(transcript[..k]);
  }

  lemma {:induction false} FlattenLength(transcript: seq<TranscriptSegment>)
    ensures |Flatten(transcript)| == WordCount(transcript)
    decreases |transcript|
  {
    var n := |transcript|;
    if n > 0 {
      var init := transcript[..n - 1];
      FlattenLength(init);
      assert transcript == init + [transcript[n - 1]];
      FlattenSnoc(init, transcript[n - 1]);
    }
  }

  /** Every flattened word's text is already stripped. */
  lemma {:induction false} FlattenStripped(transcript: seq<TranscriptSegment>, i: nat)
    requires i < |Flatten(transcript)|
    ensures Strip(Flatten(transcript)[i].text) == Flatten(transcript)[i].text
    decreases |transcript|
  {
    var n := |transcript|;
    if n > 0 {
      var initT := transcript[..n - 1];
      var seg := transcript[n - 1];
      assert transcript == initT + [seg];
      FlattenSnoc(initT, seg);
      var init := Flatten(initT);
      if i < |init| {
        FlattenStripped(initT, i);
      } else {
        match seg.words
        case Some(ws) => StripTrimmed(ws[i - |init|].word);
        case None => StripTrimmed(seg.text);
      }
    }
  }

  /** The word-extraction loop of the transcription step. */
  method FlattenTranscript(transcript: seq<TranscriptSegment>) returns (words: seq<Word>)
    ensures words == Flatten(transcript)
  {
    words := [];
    for i := 0 to |transcript|
      invariant words == Flatten(transcript[..i])
    {
      var seg := transcript[i];
      if seg.words.Some? {
        var ws := seg.words.value;
        ghost var before := words;
        for j := 0 to |ws|
          invariant words == before + PhraseWords(seg)[..j]
        {
          words := words + [Word(ws[j].start, ws[j].end, Strip(ws[j].word))];
          assert PhraseWords(seg)[..j + 1] == PhraseWords(seg)[..j] + [PhraseWords(seg)[j]];
        }
        assert PhraseWords(seg)[..|ws|] == PhraseWords(seg);
      } else {
        words := words + [Word(seg.start, seg.end, Strip(seg.text))];
      }
      assert transcript[..i + 1] == transcript[..i] + [seg];
      FlattenSnoc(transcript[..i], seg);
    }
    assert transcript[..|transcript|] == transcript;
  }

  // ---------------------------------------------------------------------
  // Grouping
  // ---------------------------------------------------------------------

  function Min(a: int, b: int): int {
    if a <= b then a else b
  }

  /** The texts of `words[i .. i + size]`, cut off at the end of the list (a negative size is empty). */
  function Window(words: seq<Word>, i: nat, size: int): (w: seq<string>)
    requires i <= |words|
    ensures |w| == Min(if size > 0 then size else 0, |words| - i)
    ensures forall j :: 0 <= j < |w| ==> w[j] == words[i + j].text
  {
    var stop := Min(i + (if size > 0 then size else 0), |words|);
    seq(stop - i, j requires 0 <= j < stop - i => words[i + j].text)
  }

  /** Widening a window by one takes in the next word, if there is one. */
  lemma WindowStep(words: seq<Word>, i: nat, j: nat)
    requires i <= |words|
    ensures Window(words, i, j + 1) ==
      if i + j < |words| then Window(words, i, j) + [words[i + j].text] else Window(words, i, j)
  {
    var w, w' := Window(words, i, j), Window(words, i, j + 1);
    if i + j < |words| {
      assert |w'| == |w| + 1;
      assert forall k :: 0 <= k < |w| ==> w'[k] == w[k];
    } else {
      assert |w'| == |w|;
    }
  }

  /** The segment anchored at word `i`. */
  function GroupAt(words: seq<Word>, i: nat, wordsPerGroup: int): Segment
    requires i < |words|
  {
    var group := Window(words, i, wordsPerGroup);
    Segment(
      start := words[i].start,
      end := if i + 1 < |words| then words[i + 1].start else words[i].end,
      words := Some(group),
      currentWordIndex := 0,
      currentWord := if |group| > 0 then group[0] else "",
      displayText := Some(Join(group, " ")),
      text := None)
  }

  /** One segment per word, in word order. */
  function WordGroups(words: seq<Word>, wordsPerGroup: int): (segs: seq<Segment>)
    ensures |segs| == |words|
  {
    seq(|words|, i requires 0 <= i < |words| => GroupAt(words, i, wordsPerGroup))
  }

  /**
   * Segment `i` starts at word `i`'s onset and ends at the next word's onset
   * (the last at its own end); it shows up to `wordsPerGroup` texts from
   * word `i` on, truncated at the end; the first of them is the highlighted
   * current word and the display text is their space-join.
   */
  lemma WordGroupsShape(words: seq<Word>, wordsPerGroup: int, i: nat)
    requires i < |words|
    ensures var seg := WordGroups(words, wordsPerGroup)[i];
      && seg.start == words[i].start
      && seg.end == (if i + 1 < |words| then words[i + 1].start else words[i].end)
      && seg.words.Some? && |seg.words.value| == Min(if wordsPerGroup > 0 then wordsPerGroup else 0, |words| - i)
      && (forall j :: 0 <= j < |seg.words.value| ==> seg.words.value[j] == words[i + j].text)
      && seg.currentWordIndex == 0
      && seg.currentWord == (if wordsPerGroup > 0 then words[i].text else "")
      && seg.displayText == Some(Join(seg.words.value, " "))
  {
  }

  /** Consecutive segments meet: each ends exactly where the next begins. */
  lemma WordGroupsContiguous(words: seq<Word>, wordsPerGroup: int)
    ensures var segs := WordGroups(words, wordsPerGroup);
      forall i :: 0 <= i < |segs| - 1 ==> segs[i].end == segs[i + 1].start
  {
  }

  /** Total time on screen. */
  function TotalDuration(segs: seq<Segment>): real
    decreases |segs|
  {
    if |segs| == 0 then 0.0 else TotalDuration(segs[..|segs| - 1]) + (segs[|segs| - 1].end - segs[|segs| - 1].start)
  }

  /**
   * The segments tile the time line: together they last exactly from the
   * first word's onset to the last word's end, with no gap and no overlap.
   */
  lemma {:induction false} WordGroupsTile(words: seq<Word>, wordsPerGroup: int)
    requires |words| > 0
    ensures TotalDuration(WordGroups(words, wordsPerGroup)) == words[|words| - 1].end - words[0].start
  {
    var segs := WordGroups(words, wordsPerGroup);
    var n := |words|;
    PrefixDuration(words, wordsPerGroup, n - 1);
    assert segs[..n - 1 + 1] == segs;
  }

  lemma {:induction false} PrefixDuration(words: seq<Word>, wordsPerGroup: int, k: nat)
    requires k < |words|
    ensures TotalDuration(WordGroups(words, wordsPerGroup)[..k]) == words[k].start - words[0].start
    ensures TotalDuration(WordGroups(words, wordsPerGroup)[..k + 1]) ==
      (if k + 1 < |words| then words[k + 1].start else words[k].end) - words[0].start
    decreases k
  {
    var segs := WordGroups(words, wordsPerGroup);
    if k > 0 {
      PrefixDuration(words, wordsPerGroup, k - 1);
      assert segs[..k][..k - 1] == segs[..k - 1];
    } else {
      assert segs[..0] == [];
    }
    assert segs[..k + 1][..k] == segs[..k];
  }

  /** The inner loop of the grouper: the texts of up to `wordsPerGroup` words from word `i` on. */
  method CollectGroup(words: seq<Word>, i: nat, wordsPerGroup: int) returns (group: seq<string>)
    requires i < |words|
    ensures group == Window(words, i, wordsPerGroup)
  {
    group := [];
    var j := 0;
    while j < wordsPerGroup
      invariant 0 <= j && (j <= wordsPerGroup || j == 0)
      invariant group == Window(words, i, j)
    {
      WindowStep(words, i, j);
      if i + j < |words| {
        group := group + [words[i + j].text];
      }
      j := j + 1;
    }
  }

  /** The grouping loop: one window per anchor word. */
  method CreateWordGroups(words: seq<Word>, wordsPerGroup: int) returns (segs: seq<Segment>)
    ensures segs == WordGroups(words, wordsPerGroup)
  {
    if |words| == 0 {
      return [];
    }
    segs := [];
    for i := 0 to |words|
      invariant |segs| == i
      invariant forall m :: 0 <= m < i ==> segs[m] == GroupAt(words, m, wordsPerGroup)
    {
      var group := CollectGroup(words, i, wordsPerGroup);
      var groupStart := words[i].start;
      var groupEnd;
      if i + 1 < |words| {
        groupEnd := words[i + 1].start;
      } else {
        groupEnd := words[i].end;
      }
      segs := segs + [Segment(
        start := groupStart,
        end := groupEnd,
        words := Some(group),
        currentWordIndex := 0,
        currentWord := if |group| > 0 then group[0] else "",
        displayText := Some(Join(group, " ")),
        text := None)];
    }
  }

  /** The transcription step once the recogniser has answered: flatten, then group by three. */
  method TranscriptToSegments(transcript: seq<TranscriptSegment>) returns (segs: seq<Segment>)
    ensures segs == WordGroups(Flatten(transcript), 3)
    ensures |segs| == WordCount(transcript)
  {
    var words := FlattenTranscript(transcript);
    FlattenLength(transcript);
    segs := CreateWordGroups(words, 3);
  }
}
