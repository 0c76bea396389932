/**
 * The caption style model: the `StyleConfig` record with its defaults, the
 * closed table of five named presets (any other name falls back to
 * `instagram_classic`), the preset names and their descriptions, and the
 * conversion between `#RRGGBB` and the ASS colour form `&HBBGGRR`.
 */
module Styles {
  import opened Text

  /**
   * One caption style. Ratios are fractions of the video height; colours
   * are ASS colour strings; `highlightStyle` names the first-word effect
   * (`color_change`, `scale_up`, `glow_pulse` or `background_highlight`;
   * any other value is rendered like `color_change`).
   */
  datatype StyleConfig = StyleConfig(
    fontFamily: string,
    fontSizeRatio: real,
    fontWeight: string,
    baseColor: string,
    highlightColor: string,
    outlineColor: string,
    highlightStyle: string,
    outlineWidth: int,
    glowEnabled: bool,
    glowIntensity: string,
    wordsPerLine: int,
    position: string,
    alignment: int,
    marginRatio: real,
    backgroundEnabled: bool,
    backgroundColor: string,
    backgroundOpacity: int)

  /** `StyleConfig()` with every field at its declared default. */
  const DefaultStyle := StyleConfig(
    fontFamily := "Arial",
    fontSizeRatio := 0.05,
    fontWeight := "bold",
    baseColor := "&Hffffff",
    highlightColor := "&H00d7ff",
    outlineColor := "&H000000",
    highlightStyle := "color_change",
    outlineWidth := 2,
    glowEnabled := false,
    glowIntensity := "none",
    wordsPerLine := 3,
    position := "bottom",
    alignment := 2,
    marginRatio := 0.08,
    backgroundEnabled := false,
    backgroundColor := "&H80000000",
    backgroundOpacity := 80)

  /** The four documented highlight effects. */
  const HighlightModes: set<string> := {"color_change", "scale_up", "glow_pulse", "background_highlight"}

  /** The preset table; each entry overrides some defaults, as the keyword arguments do. */
  const Presets: map<string, StyleConfig> := map[
    "instagram_classic" := DefaultStyle.(
      fontFamily := "Arial", fontSizeRatio := 0.05, baseColor := "&Hffffff",
      highlightColor := "&H00d7ff", outlineColor := "&H000000", highlightStyle := "color_change",
      outlineWidth := 2, wordsPerLine := 3, position := "bottom", marginRatio := 0.08),
    "tiktok_viral" := DefaultStyle.(
      fontFamily := "Arial", fontSizeRatio := 0.055, baseColor := "&Hffffff",
      highlightColor := "&Hffff00", outlineColor := "&H000000", highlightStyle := "glow_pulse",
      outlineWidth := 1, glowEnabled := true, glowIntensity := "strong", wordsPerLine := 4,
      position := "bottom", marginRatio := 0.07),
    "youtube_professional" := DefaultStyle.(
      fontFamily := "Arial", fontSizeRatio := 0.045, baseColor := "&Hffffff",
      highlightColor := "&H0000ff", outlineColor := "&H000000",
      highlightStyle := "background_highlight", outlineWidth := 2, backgroundEnabled := true,
      backgroundColor := "&H80000000", backgroundOpacity := 70, wordsPerLine := 3,
      position := "bottom", marginRatio := 0.09),
    "minimalist" := DefaultStyle.(
      fontFamily := "Arial", fontSizeRatio := 0.04, baseColor := "&Hffffff",
      highlightColor := "&He2904a", outlineColor := "&H404040", highlightStyle := "scale_up",
      outlineWidth := 1, wordsPerLine := 3, position := "center", marginRatio := 0.1),
    "gaming" := DefaultStyle.(
      fontFamily := "Arial", fontSizeRatio := 0.06, baseColor := "&Hffffff",
      highlightColor := "&H00ff00", outlineColor := "&H000000", highlightStyle := "glow_pulse",
      outlineWidth := 3, glowEnabled := true, glowIntensity := "strong", wordsPerLine := 2,
      position := "bottom", marginRatio := 0.06)
  ]

  /** The style for a preset name; an unknown name silently gets `instagram_classic`. */
  function GetPreset(name: string): (s: StyleConfig)
    ensures name in ListPresets() ==> s == Presets[name]
    ensures name !in ListPresets() ==> s == DefaultStyle
  {
    if name in Presets then Presets[name] else Presets["instagram_classic"]
  }

  /** The preset names, in their fixed display order. */
  function ListPresets(): seq<string> {
    ["instagram_classic", "tiktok_viral", "youtube_professional", "minimalist", "gaming"]
  }

  /** What the user interface shows for a preset. */
  datatype PresetInfo = PresetInfo(name: string, description: string, bestFor: string)

  function GetPresetInfo(): map<string, PresetInfo> {
    map[
      "instagram_classic" := PresetInfo("Instagram Classic", "Clean white text with gold highlight",
                                        "Professional content, tutorials"),
      "tiktok_viral" := PresetInfo("TikTok Viral", "Bold text with cyan glow effect",
                                   "Dance videos, trends, young audience"),
      "youtube_professional" := PresetInfo("YouTube Professional", "Red background highlight style",
                                           "Educational content, business videos"),
      "minimalist" := PresetInfo("Minimalist", "Subtle scale effect with soft colors",
                                 "Aesthetic content, quotes"),
      "gaming" := PresetInfo("Gaming/Streamer", "Bold green glow with thick outline",
                             "Gaming content, reactions")
    ]
  }

  /** The listed names, the preset table and the descriptions cover the same five names, each listed once. */
  lemma PresetCatalogConsistent()
    ensures |ListPresets()| == 5
    ensures forall i, j :: 0 <= i < j < |ListPresets()| ==> ListPresets()[i] != ListPresets()[j]
    ensures Presets.Keys == (set n | n in ListPresets())
    ensures GetPresetInfo().Keys == Presets.Keys
  {
    PresetNamesDistinct();
    PresetTableKeys();
    PresetInfoKeys();
  }

  lemma PresetNamesDistinct()
    ensures forall i, j :: 0 <= i < j < |ListPresets()| ==> ListPresets()[i] != ListPresets()[j]
  {
  }

  /** The five names, as a set. */
  const PresetNames: set<string> := {"instagram_classic", "tiktok_viral", "youtube_professional", "minimalist", "gaming"}

  lemma PresetTableKeys()
    ensures Presets.Keys == PresetNames
    ensures (set n | n in ListPresets()) == PresetNames
  {
  }

  lemma PresetInfoKeys()
    ensures GetPresetInfo().Keys == PresetNames
  {
  }

  /** `instagram_classic` is exactly the all-defaults style, so the fallback is the default. */
  lemma ClassicIsDefault()
    ensures Presets["instagram_classic"] == DefaultStyle
    ensures GetPreset("nonexistent_name") == GetPreset("instagram_classic")
  {
  }

  /**
   * Every preset uses a documented highlight effect, and both glow presets
   * turn the glow on at `strong` intensity.
   */
  lemma PresetsUseDocumentedModes()
    ensures forall name :: name in Presets ==> Presets[name].highlightStyle in HighlightModes
    ensures forall name :: name in Presets && Presets[name].highlightStyle == "glow_pulse" ==>
      Presets[name].glowEnabled && Presets[name].glowIntensity == "strong"
  {
  }

  // ---------------------------------------------------------------------
  // Colour conversion
  // ---------------------------------------------------------------------

  /** A string with at most one leading `#` removed. */
  function HexBody(hexColor: string): string {
    if |hexColor| > 0 && hexColor[0] == '#' then hexColor[1..] else hexColor
  }

  /**
   * `#RRGGBB` (or `RRGGBB`) to `&HBBGGRR`: the three two-character pairs
   * in reverse order. Any other length gives white, `&Hffffff`.
   */
  function HexToAssColor(hexColor: string): (r: string)
    ensures |r| == 8 && r[..2] == "&H"
    ensures var body := HexBody(hexColor);
      |body| == 6 ==> r[2..4] == body[4..6] && r[4..6] == body[2..4] && r[6..8] == body[0..2]
    ensures |HexBody(hexColor)| != 6 ==> r == "&Hffffff"
  {
    var body := HexBody(hexColor);
    if |body| == 6 then
      var red, green, blue := body[0..2], body[2..4], body[4..6];
      "&H" + blue + green + red
    else "&Hffffff"
  }

  /** The form `AssToHexColor` accepts: an `&H` prefix and at least eight characters. */
  predicate IsAssColor(assColor: string) {
    |assColor| >= 8 && assColor[..2] == "&H"
  }

  /**
   * `&HBBGGRR...` to `#RRGGBB` in upper case: characters 2..8 with the pairs
   * reversed; anything not of the accepted form gives `#FFFFFF`.
   */
  function AssToHexColor(assColor: string): (r: string)
    ensures |r| == 7 && r[0] == '#'
    ensures IsAssColor(assColor) ==>
      r == "#" + Upper(assColor[6..8]) + Upper(assColor[4..6]) + Upper(assColor[2..4])
    ensures !IsAssColor(assColor) ==> r == "#FFFFFF"
  {
    if IsAssColor(assColor) then
      var colorPart := assColor[2..8];
      var blue, green, red := colorPart[0..2], colorPart[2..4], colorPart[4..6];
      UpperConcat("#" + red + green, blue);
      UpperConcat("#" + red, green);
      UpperConcat("#", red);
      Upper("#" + red + green + blue)
    else "#FFFFFF"
  }

  /** Every converted colour is of the form the reverse conversion accepts. */
  lemma HexToAssIsAccepted(hexColor: string)
    ensures IsAssColor(HexToAssColor(hexColor))
  {
  }

  /**
   * Hex to ASS and back returns the six-digit body in upper case, with or
   * without the `#`; a malformed input comes back as white.
   */
  lemma HexRoundTrip(hexColor: string)
    ensures var body := HexBody(hexColor);
      AssToHexColor(HexToAssColor(hexColor)) == if |body| == 6 then Upper("#" + body) else "#FFFFFF"
  {
    var body := HexBody(hexColor);
    if |body| == 6 {
      var red, green, blue := body[0..2], body[2..4], body[4..6];
      assert body == red + green + blue;
      assert HexToAssColor(hexColor) == "&H" + blue + green + red;
      PairsBack(red, green, blue, body);
    } else {
      WhiteUpper();
    }
  }

  lemma WhiteUpper()
    ensures Upper("#ffffff") == "#FFFFFF"
  {
    var w := Upper("#ffffff");
    assert w[0] == '#' && w[1] == 'F' && w[2] == 'F' && w[3] == 'F';
    assert w[4] == 'F' && w[5] == 'F' && w[6] == 'F';
  }

  /** Three pairs behind `&H` convert to `#` and the pairs reversed, upper-cased. */
  lemma PairsBack(red: string, green: string, blue: string, body: string)
    requires |red| == 2 && |green| == 2 && |blue| == 2 && body == red + green + blue
    ensures AssToHexColor("&H" + blue + green + red) == Upper("#" + body)
  {
    var a := "&H" + blue + green + red;
    assert a[..2] == "&H" && a[2..4] == blue && a[4..6] == green && a[6..8] == red;
    UpperThree(red, green, blue);
    UpperConcat("#", body);
    assert Upper("#") == "#";
  }

  /** A `#` and three pairs convert to the pairs in reverse order. */
  lemma HexOfPairs(red: string, green: string, blue: string)
    requires |red| == 2 && |green| == 2 && |blue| == 2
    ensures HexToAssColor("#" + red + green + blue) == "&H" + blue + green + red
  {
    var body := red + green + blue;
    assert HexBody("#" + red + green + blue) == body;
    assert body[0..2] == red && body[2..4] == green && body[4..6] == blue;
  }

  /** Upper-casing three pairs and converting them back reverses them again. */
  lemma UpperPairsBack(blue: string, green: string, red: string, body: string)
    requires |blue| == 2 && |green| == 2 && |red| == 2 && body == blue + green + red
    ensures HexToAssColor("#" + Upper(red) + Upper(green) + Upper(blue)) == "&H" + Upper(body)
  {
    HexOfPairs(Upper(red), Upper(green), Upper(blue));
    UpperThree(blue, green, red);
  }

  /** ASS to hex and back gives the six colour digits in upper case behind `&H`. */
  lemma AssRoundTrip(assColor: string)
    requires IsAssColor(assColor)
    ensures HexToAssColor(AssToHexColor(assColor)) == "&H" + Upper(assColor[2..8])
  {
    var blue, green, red := assColor[2..4], assColor[4..6], assColor[6..8];
    assert assColor[2..8] == blue + green + red;
    UpperPairsBack(blue, green, red, assColor[2..8]);
  }
}
