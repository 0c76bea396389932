/**
 * The fixed vocabulary of an Advanced SubStation Alpha (ASS) file as both
 * subtitle generators write it: the `[Script Info]`, `[V4+ Styles]` and
 * `[Events]` sections, their `Format:` lines, and the layout of a `Style:`
 * and a `Dialogue:` line. A document is a header (ending in a line break)
 * followed by event lines joined by line breaks; the lemmas here read a
 * document back line by line and count its style and event lines.
 */
module AssFormat {
  import opened Text

  // ---------------------------------------------------------------------
  // Lines
  // ---------------------------------------------------------------------

  /** The values of one `Style:` line that vary; the others are fixed. */
  datatype StyleRecord = StyleRecord(
    name: string,
    fontName: string,
    fontSize: int,
    primaryColour: string,
    secondaryColour: string,
    outlineColour: string,
    backColour: string,
    scaleX: int,
    scaleY: int,
    outline: int,
    alignment: int,
    marginL: int,
    marginR: int,
    marginV: int)

  /** The column names of the styles section. */
  const StyleColumns: seq<string> := [
    "Name", "Fontname", "Fontsize", "PrimaryColour", "SecondaryColour", "OutlineColour",
    "BackColour", "Bold", "Italic", "Underline", "StrikeOut", "ScaleX", "ScaleY", "Spacing",
    "Angle", "BorderStyle", "Outline", "Shadow", "Alignment", "MarginL", "MarginR", "MarginV",
    "Encoding"]

  /** The column names of the events section. */
  const EventColumns: seq<string> := [
    "Layer", "Start", "End", "Style", "Name", "MarginL", "MarginR", "MarginV", "Effect", "Text"]

  /** A `Format:` line. */
  function FormatLine(columns: seq<string>): string {
    "Format: " + Join(columns, ", ")
  }

  /**
   * A style record's values in column order: always bold, not italic,
   * underlined or struck out, no spacing or angle, outline-and-shadow
   * border, no shadow, encoding 1.
   */
  function StyleFields(r: StyleRecord): seq<string> {
    [r.name, r.fontName, FormatInt(r.fontSize, 0), r.primaryColour, r.secondaryColour,
     r.outlineColour, r.backColour, "1", "0", "0", "0", FormatInt(r.scaleX, 0),
     FormatInt(r.scaleY, 0), "0", "0", "1", FormatInt(r.outline, 0), "0",
     FormatInt(r.alignment, 0), FormatInt(r.marginL, 0), FormatInt(r.marginR, 0),
     FormatInt(r.marginV, 0), "1"]
  }

  function StyleLine(r: StyleRecord): string {
    "Style: " + Join(StyleFields(r), ",")
  }

  /** An event's values in column order: layer 0, style `Default`, no name, margins or effect. */
  function EventFields(start: string, end: string, text: string): seq<string> {
    ["0", start, end, "Default", "", "0", "0", "0", "", text]
  }

  /** `f"Dialogue: 0,{start},{end},Default,,0,0,0,,{text}"`. */
  function EventLine(start: string, end: string, text: string): string {
    "Dialogue: 0," + start + "," + end + ",Default,,0,0,0,," + text
  }

  /** Seven parts joined, written out. */
  lemma JoinSeven(a: string, b: string, c: string, d: string, e: string, f: string, g: string, sep: string)
    ensures Join([a, b, c, d, e, f, g], sep) ==
      a + sep + b + sep + c + sep + d + sep + e + sep + f + sep + g
  {
    var p := [a, b, c, d, e, f, g];
    assert p[1..] == [b, c, d, e, f, g] && p[2..] == [c, d, e, f, g] && p[3..] == [d, e, f, g];
    assert p[4..] == [e, f, g] && p[5..] == [f, g] && p[6..] == [g];
    assert Join(p[5..], sep) == f + sep + g;
    assert Join(p[4..], sep) == e + sep + (f + sep + g);
    assert Join(p[3..], sep) == d + sep + (e + sep + (f + sep + g));
    assert Join(p[2..], sep) == c + sep + (d + sep + (e + sep + (f + sep + g)));
    assert Join(p[1..], sep) == b + sep + (c + sep + (d + sep + (e + sep + (f + sep + g))));
  }

  lemma EventTailJoin(text: string)
    ensures Join(["Default", "", "0", "0", "0", "", text], ",") == "Default,,0,0,0,," + text
  {
    JoinSeven("Default", "", "0", "0", "0", "", text, ",");
    assert "Default" + "," + "" + "," + "0" + "," + "0" + "," + "0" + "," + "" + "," == "Default,,0,0,0,,";
  }

  /** Three parts in front of a non-empty rest, joined. */
  lemma JoinThreeThen(a: string, b: string, c: string, rest: seq<string>, sep: string)
    requires |rest| > 0
    ensures Join([a, b, c] + rest, sep) == (a + sep) + ((b + sep) + ((c + sep) + Join(rest, sep)))
  {
    assert [a, b, c] + rest == [a] + ([b] + ([c] + rest));
    JoinCons(c, rest, sep);
    JoinCons(b, [c] + rest, sep);
    JoinCons(a, [b] + ([c] + rest), sep);
  }

  /** Regrouping the pieces of an event line; split out to keep each proof small for the solver. */
  lemma EventRegroup(d: string, zero: string, comma: string, start: string, end: string, tail: string,
                     text: string, prefix: string, infix: string)
    requires prefix == d + zero + comma && infix == comma + tail
    ensures d + ((zero + comma) + ((start + comma) + ((end + comma) + (tail + text)))) ==
      prefix + start + comma + end + infix + text
  {
  }

  /** The fixed pieces of an event line, regrouped; split out to keep each proof small for the solver. */
  lemma EventLiterals()
    ensures "Dialogue: 0," == "Dialogue: " + "0" + ","
    ensures ",Default,,0,0,0,," == "," + "Default,,0,0,0,,"
  {
  }

  /** An event line is its values, comma-separated. */
  lemma EventLineJoin(start: string, end: string, text: string)
    ensures EventLine(start, end, text) == "Dialogue: " + Join(EventFields(start, end, text), ",")
  {
    var tail := ["Default", "", "0", "0", "0", "", text];
    assert EventFields(start, end, text) == ["0", start, end] + tail;
    JoinThreeThen("0", start, end, tail, ",");
    EventTailJoin(text);
    EventLiterals();
    EventRegroup("Dialogue: ", "0", ",", start, end, "Default,,0,0,0,,", text, "Dialogue: 0,", ",Default,,0,0,0,,");
  }

  /** Every style record has one value per declared style column, and reads back. */
  lemma {:induction false} StyleFieldsMatchFormat(r: StyleRecord)
    ensures |StyleFields(r)| == |StyleColumns|
    ensures StyleFields(r)[0] == r.name && StyleFields(r)[11] == FormatInt(r.scaleX, 0)
    ensures (',' !in r.name && ',' !in r.fontName && ',' !in r.primaryColour &&
             ',' !in r.secondaryColour && ',' !in r.outlineColour && ',' !in r.backColour) ==>
      Split(StyleLine(r)[|"Style: "|..], ',') == StyleFields(r)
  {
    var fields := StyleFields(r);
    if ',' !in r.name && ',' !in r.fontName && ',' !in r.primaryColour &&
      ',' !in r.secondaryColour && ',' !in r.outlineColour && ',' !in r.backColour {
      FormatIntHasNo(r.fontSize, 0, ',');
      FormatIntHasNo(r.scaleX, 0, ',');
      FormatIntHasNo(r.scaleY, 0, ',');
      FormatIntHasNo(r.outline, 0, ',');
      FormatIntHasNo(r.alignment, 0, ',');
      FormatIntHasNo(r.marginL, 0, ',');
      FormatIntHasNo(r.marginR, 0, ',');
      FormatIntHasNo(r.marginV, 0, ',');
      assert forall i :: 0 <= i < |fields| ==> ',' !in fields[i];
      assert StyleLine(r)[|"Style: "|..] == Join(fields, [',']);
      SplitJoin(fields, ',');
    }
  }

  /**
   * An event line has one value per declared event column, and reads back:
   * its first nine comma-separated values are the fixed ones and the times,
   * and the rest, commas and all, is the text.
   */
  lemma EventLineFields(start: string, end: string, text: string)
    requires ',' !in start && ',' !in end
    ensures |EventFields(start, end, text)| == |EventColumns|
    ensures var values := Split(EventLine(start, end, text)[|"Dialogue: "|..], ',');
      |values| >= 10 && values[..9] == EventFields(start, end, text)[..9] &&
      Join(values[9..], ",") == text
  {
    EventLineJoin(start, end, text);
    var fields := EventFields(start, end, text);
    var first := fields[..9];
    assert fields == first + [text];
    JoinAppend(first, [text], ",");
    assert EventLine(start, end, text)[|"Dialogue: "|..] == Join(first, [',']) + [','] + text;
    assert forall i :: 0 <= i < |first| ==> ',' !in first[i];
    SplitJoinThen(first, text, ',');
    var values := Split(EventLine(start, end, text)[|"Dialogue: "|..], ',');
    assert values[..9] == first && values[9..] == Split(text, ',');
    JoinSplit(text, ',');
  }

  // ---------------------------------------------------------------------
  // Header and document
  // ---------------------------------------------------------------------

  /** The header's lines before the style lines. */
  function InfoLines(title: string): seq<string> {
    ["[Script Info]", "Title: " + title, "ScriptType: v4.00+", "", "[V4+ Styles]",
     FormatLine(StyleColumns)]
  }

  /** The header's lines after the style lines. */
  function EventsLines(): seq<string> {
    ["", "[Events]", FormatLine(EventColumns)]
  }

  /** The header: script info, one `Style:` line per record, the events' `Format:` line. */
  function HeaderLines(title: string, styles: seq<StyleRecord>): seq<string> {
    InfoLines(title) + Map(styles, StyleLine) + EventsLines()
  }

  /** The header text, newline-terminated. */
  function Header(title: string, styles: seq<StyleRecord>): string {
    Join(HeaderLines(title, styles), "\n") + "\n"
  }

  /** A header followed by event lines joined by line breaks. */
  function Document(title: string, styles: seq<StyleRecord>, events: seq<string>): string {
    Header(title, styles) + Join(events, "\n")
  }

  // ---------------------------------------------------------------------
  // Reading a document back
  // ---------------------------------------------------------------------

  /** The record's strings hold no line break. */
  predicate RecordSingleLine(r: StyleRecord) {
    '\n' !in r.name && '\n' !in r.fontName && '\n' !in r.primaryColour &&
    '\n' !in r.secondaryColour && '\n' !in r.outlineColour && '\n' !in r.backColour
  }

  /** A line neither a style line nor an event line. */
  predicate PlainLine(line: string) {
    '\n' !in line && !("Style: " <= line) && !("Dialogue: " <= line)
  }

  lemma StyleLineSingle(r: StyleRecord)
    requires RecordSingleLine(r)
    ensures '\n' !in StyleLine(r)
  {
    var fields := StyleFields(r);
    FormatIntHasNo(r.fontSize, 0, '\n');
    FormatIntHasNo(r.scaleX, 0, '\n');
    FormatIntHasNo(r.scaleY, 0, '\n');
    FormatIntHasNo(r.outline, 0, '\n');
    FormatIntHasNo(r.alignment, 0, '\n');
    FormatIntHasNo(r.marginL, 0, '\n');
    FormatIntHasNo(r.marginR, 0, '\n');
    FormatIntHasNo(r.marginV, 0, '\n');
    assert forall i :: 0 <= i < |fields| ==> '\n' !in fields[i];
    JoinHasNo(fields, ",", '\n');
  }

  /** A style line is counted as one and is not an event. */
  lemma StyleLineKind(r: StyleRecord)
    ensures "Style: " <= StyleLine(r) && !("Dialogue: " <= StyleLine(r))
  {
    assert StyleLine(r)[0] == 'S';
  }

  lemma EventLineSingle(start: string, end: string, text: string)
    requires '\n' !in start && '\n' !in end && '\n' !in text
    ensures '\n' !in EventLine(start, end, text)
  {
  }

  /** An event line is counted as one and is not a style. */
  lemma EventLineKind(start: string, end: string, text: string)
    ensures "Dialogue: " <= EventLine(start, end, text) && !("Style: " <= EventLine(start, end, text))
  {
    assert EventLine(start, end, text)[0] == 'D';
  }

  /** A `Format:` line of single-line column names is a plain line. */
  lemma FormatLinePlain(columns: seq<string>)
    requires forall i :: 0 <= i < |columns| ==> '\n' !in columns[i]
    ensures PlainLine(FormatLine(columns))
  {
    JoinHasNo(columns, ", ", '\n');
    assert FormatLine(columns)[0] == 'F';
  }

  // The column names hold no line break, six at a time; split into four
  // lemmas to keep each proof small for the solver.

  lemma StyleColumnsSingle0()
    ensures forall i :: 0 <= i < 6 ==> '\n' !in StyleColumns[i]
  {
  }

  lemma StyleColumnsSingle6()
    ensures forall i :: 6 <= i < 12 ==> '\n' !in StyleColumns[i]
  {
  }

  lemma StyleColumnsSingle12()
    ensures forall i :: 12 <= i < 18 ==> '\n' !in StyleColumns[i]
  {
  }

  lemma StyleColumnsSingle18()
    ensures forall i :: 18 <= i < |StyleColumns| ==> '\n' !in StyleColumns[i]
  {
  }

  lemma EventColumnsSingle0()
    ensures forall i :: 0 <= i < 5 ==> '\n' !in EventColumns[i]
  {
  }

  lemma EventColumnsSingle5()
    ensures forall i :: 5 <= i < |EventColumns| ==> '\n' !in EventColumns[i]
  {
  }

  lemma StyleColumnsPlain()
    ensures PlainLine(FormatLine(StyleColumns))
  {
    StyleColumnsSingle0();
    StyleColumnsSingle6();
    StyleColumnsSingle12();
    StyleColumnsSingle18();
    FormatLinePlain(StyleColumns);
  }

  lemma EventColumnsPlain()
    ensures PlainLine(FormatLine(EventColumns))
  {
    EventColumnsSingle0();
    EventColumnsSingle5();
    FormatLinePlain(EventColumns);
  }

  /** The section headings and the blank separator line. */
  lemma SectionLinesPlain()
    ensures PlainLine("[Script Info]") && PlainLine("[V4+ Styles]") && PlainLine("[Events]")
    ensures PlainLine("")
  {
    assert "[Script Info]"[0] == '[';
    assert "[V4+ Styles]"[0] == '[';
    assert "[Events]"[0] == '[';
  }

  lemma ScriptTypePlain()
    ensures PlainLine("ScriptType: v4.00+")
  {
    assert "ScriptType: v4.00+"[1] == 'c';
  }

  lemma TitlePlain(title: string)
    requires '\n' !in title
    ensures PlainLine("Title: " + title)
  {
    assert ("Title: " + title)[0] == 'T';
  }

  lemma InfoHeadPlain(title: string)
    requires '\n' !in title
    ensures PlainLine(InfoLines(title)[0]) && PlainLine(InfoLines(title)[1]) && PlainLine(InfoLines(title)[2])
  {
    var lines := InfoLines(title);
    assert lines[0] == "[Script Info]" && lines[1] == "Title: " + title && lines[2] == "ScriptType: v4.00+";
    FirstThreePlain("[Script Info]", "Title: " + title, "ScriptType: v4.00+", title);
  }

  /** The first three info lines, as plain variables; split out to keep each proof small for the solver. */
  lemma FirstThreePlain(a: string, b: string, c: string, title: string)
    requires a == "[Script Info]" && b == "Title: " + title && c == "ScriptType: v4.00+"
    requires '\n' !in title
    ensures PlainLine(a) && PlainLine(b) && PlainLine(c)
  {
    SectionLinesPlain();
    TitlePlain(title);
    ScriptTypePlain();
  }

  lemma InfoTailPlain(title: string)
    ensures PlainLine(InfoLines(title)[3]) && PlainLine(InfoLines(title)[4]) && PlainLine(InfoLines(title)[5])
  {
    SectionLinesPlain();
    StyleColumnsPlain();
  }

  /** Six plain lines; split out to keep each proof small for the solver. */
  lemma SixPlain(lines: seq<string>)
    requires |lines| == 6
    requires PlainLine(lines[0]) && PlainLine(lines[1]) && PlainLine(lines[2])
    requires PlainLine(lines[3]) && PlainLine(lines[4]) && PlainLine(lines[5])
    ensures forall i :: 0 <= i < |lines| ==> PlainLine(lines[i])
  {
    forall i | 0 <= i < |lines|
      ensures PlainLine(lines[i])
    {
      assert i == 0 || i == 1 || i == 2 || i == 3 || i == 4 || i == 5;
    }
  }

  lemma InfoLinesPlain(title: string)
    requires '\n' !in title
    ensures forall i :: 0 <= i < |InfoLines(title)| ==> PlainLine(InfoLines(title)[i])
  {
    InfoHeadPlain(title);
    InfoTailPlain(title);
    SixPlain(InfoLines(title));
  }

  lemma EventsLinesPlain()
    ensures forall i :: 0 <= i < |EventsLines()| ==> PlainLine(EventsLines()[i])
  {
    forall i | 0 <= i < |EventsLines()|
      ensures PlainLine(EventsLines()[i])
    {
      if i == 2 {
        EventColumnsPlain();
      } else {
        SectionLinesPlain();
      }
    }
  }

  /** The style lines: one per record, each a single `Style:` line. */
  lemma StyleLinesAt(styles: seq<StyleRecord>)
    ensures |Map(styles, StyleLine)| == |styles|
    ensures forall i :: 0 <= i < |styles| ==> Map(styles, StyleLine)[i] == StyleLine(styles[i])
    ensures forall i :: 0 <= i < |styles| ==>
      "Style: " <= Map(styles, StyleLine)[i] && !("Dialogue: " <= Map(styles, StyleLine)[i])
  {
    MapAt(styles, StyleLine);
    forall i | 0 <= i < |styles|
      ensures "Style: " <= StyleLine(styles[i]) && !("Dialogue: " <= StyleLine(styles[i]))
    {
      StyleLineKind(styles[i]);
    }
  }

  /** Single lines between plain lines: all single lines. */
  lemma AppendSingle(a: seq<string>, b: seq<string>, c: seq<string>)
    requires forall i :: 0 <= i < |a| ==> PlainLine(a[i])
    requires forall i :: 0 <= i < |b| ==> '\n' !in b[i]
    requires forall i :: 0 <= i < |c| ==> PlainLine(c[i])
    ensures forall i :: 0 <= i < |a + b + c| ==> '\n' !in (a + b + c)[i]
  {
  }

  /** No header line holds a line break. */
  lemma HeaderLinesSingle(title: string, styles: seq<StyleRecord>)
    requires '\n' !in title
    requires forall i :: 0 <= i < |styles| ==> RecordSingleLine(styles[i])
    ensures forall i :: 0 <= i < |HeaderLines(title, styles)| ==> '\n' !in HeaderLines(title, styles)[i]
  {
    var lines := Map(styles, StyleLine);
    InfoLinesPlain(title);
    EventsLinesPlain();
    StyleLinesAt(styles);
    forall i | 0 <= i < |lines|
      ensures '\n' !in lines[i]
    {
      StyleLineSingle(styles[i]);
    }
    AppendSingle(InfoLines(title), lines, EventsLines());
  }

  /** Style lines between plain lines are the only ones counted as styles. */
  lemma CountsAround(before: seq<string>, styleLines: seq<string>, after: seq<string>)
    requires forall i :: 0 <= i < |before| ==> PlainLine(before[i])
    requires forall i :: 0 <= i < |after| ==> PlainLine(after[i])
    requires forall i :: 0 <= i < |styleLines| ==>
      "Style: " <= styleLines[i] && !("Dialogue: " <= styleLines[i])
    ensures CountWithPrefix(before + styleLines + after, "Style: ") == |styleLines|
    ensures CountWithPrefix(before + styleLines + after, "Dialogue: ") == 0
  {
    CountWithPrefixNone(before, "Style: ");
    CountWithPrefixNone(before, "Dialogue: ");
    CountWithPrefixNone(after, "Style: ");
    CountWithPrefixNone(after, "Dialogue: ");
    CountWithPrefixAll(styleLines, "Style: ");
    CountWithPrefixNone(styleLines, "Dialogue: ");
    CountWithPrefixAppend(before + styleLines, after, "Style: ");
    CountWithPrefixAppend(before, styleLines, "Style: ");
    CountWithPrefixAppend(before + styleLines, after, "Dialogue: ");
    CountWithPrefixAppend(before, styleLines, "Dialogue: ");
  }

  /** The header declares one style per record and no event. */
  lemma HeaderCounts(title: string, styles: seq<StyleRecord>)
    requires '\n' !in title
    ensures CountWithPrefix(HeaderLines(title, styles), "Style: ") == |styles|
    ensures CountWithPrefix(HeaderLines(title, styles), "Dialogue: ") == 0
  {
    InfoLinesPlain(title);
    EventsLinesPlain();
    StyleLinesAt(styles);
    CountsAround(InfoLines(title), Map(styles, StyleLine), EventsLines());
  }

  /**
   * A document with events splits at line breaks into exactly its header
   * lines followed by its event lines, in order.
   */
  lemma DocumentLines(title: string, styles: seq<StyleRecord>, events: seq<string>)
    requires |events| > 0
    requires '\n' !in title
    requires forall i :: 0 <= i < |styles| ==> RecordSingleLine(styles[i])
    requires forall i :: 0 <= i < |events| ==> '\n' !in events[i]
    ensures Split(Document(title, styles, events), '\n') == HeaderLines(title, styles) + events
  {
    var header := HeaderLines(title, styles);
    HeaderLinesSingle(title, styles);
    JoinAppend(header, events, "\n");
    assert "\n" == ['\n'];
    var all := header + events;
    assert forall i :: 0 <= i < |all| ==> '\n' !in all[i];
    SplitJoin(all, '\n');
  }

  /** Counting across a header and the events that follow it. */
  lemma CountsAfter(header: seq<string>, events: seq<string>, styleCount: nat)
    requires CountWithPrefix(header, "Style: ") == styleCount
    requires CountWithPrefix(header, "Dialogue: ") == 0
    ensures CountWithPrefix(header + events, "Style: ") == styleCount + CountWithPrefix(events, "Style: ")
    ensures CountWithPrefix(header + events, "Dialogue: ") == CountWithPrefix(events, "Dialogue: ")
  {
    CountWithPrefixAppend(header, events, "Style: ");
    CountWithPrefixAppend(header, events, "Dialogue: ");
  }

  /** A document holds one style line per record and the event lines' own. */
  lemma DocumentCounts(title: string, styles: seq<StyleRecord>, events: seq<string>)
    requires |events| > 0
    requires '\n' !in title
    requires forall i :: 0 <= i < |styles| ==> RecordSingleLine(styles[i])
    requires forall i :: 0 <= i < |events| ==> '\n' !in events[i]
    ensures CountWithPrefix(Split(Document(title, styles, events), '\n'), "Style: ") ==
      |styles| + CountWithPrefix(events, "Style: ")
    ensures CountWithPrefix(Split(Document(title, styles, events), '\n'), "Dialogue: ") ==
      CountWithPrefix(events, "Dialogue: ")
  {
    DocumentLines(title, styles, events);
    HeaderCounts(title, styles);
    CountsAfter(HeaderLines(title, styles), events, |styles|);
  }

  /** The event both fallback files hold: five seconds of "No speech detected". */
  const NoSpeechEvent: string := EventLine("0:00:00.00", "0:00:05.00", "No speech detected")

  /** The fallback event is a single `Dialogue:` line. */
  lemma NoSpeechEventLine()
    ensures '\n' !in NoSpeechEvent
    ensures "Dialogue: " <= NoSpeechEvent && !("Style: " <= NoSpeechEvent)
  {
    EventLineSingle("0:00:00.00", "0:00:05.00", "No speech detected");
    EventLineKind("0:00:00.00", "0:00:05.00", "No speech detected");
  }

  /**
   * A document of one event and an empty last line (the event, then a
   * final line break) splits back into the header lines, the event and the
   * empty rest, and holds one style per record and the event.
   */
  lemma SingleEventDocument(title: string, styles: seq<StyleRecord>, event: string)
    requires '\n' !in title && '\n' !in event
    requires forall i :: 0 <= i < |styles| ==> RecordSingleLine(styles[i])
    requires "Dialogue: " <= event && !("Style: " <= event)
    ensures var lines := Split(Document(title, styles, [event, ""]), '\n');
      lines == HeaderLines(title, styles) + [event, ""] &&
      CountWithPrefix(lines, "Style: ") == |styles| && CountWithPrefix(lines, "Dialogue: ") == 1
  {
    var events := [event, ""];
    DocumentLines(title, styles, events);
    DocumentCounts(title, styles, events);
    assert events[1..][1..] == [];
    assert CountWithPrefix(events, "Style: ") == 0;
    assert CountWithPrefix(events, "Dialogue: ") == 1;
  }
}
