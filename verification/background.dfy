/**
  The background panel: the swatch, gradient-preset, direction and pattern
  tables, which entry is highlighted for the current options, and which
  `updateOption` calls each control makes.
 */
module Background {
  import opened Wrappers
  import opened Options
  import Preview

  /** The eight direction buttons, in display order. */
  const Directions: seq<string> := [
    "to top", "to top right", "to right", "to bottom right",
    "to bottom", "to bottom left", "to left", "to top left"]

  /** The sixteen colour swatches. */
  const Swatches: seq<string> := [
    "#FCC8D1", "#DBC4F0", "#B2A4FF", "#67729D", "#7C93C3",
    "#7B8FA1", "#609966", "#A6BB8D", "#FFF6BD", "#F2D388",
    "#FFF3E2", "#FFC3A1", "#D3756B", "#FFABAB", "#000000",
    "#FFFFFF"]

  /** One gradient preset button: its colour list and direction. */
  datatype GradientOption = GradientOption(colors: seq<string>, direction: string)

  /** The twenty gradient presets; three of them list three colours. */
  const GradientOptions: seq<GradientOption> := [
    GradientOption(["#FF416C", "#FF4B2B"], "to right"),
    GradientOption(["#4158D0", "#C850C0"], "to right"),
    GradientOption(["#00DBDE", "#FC00FF"], "to right"),
    GradientOption(["#0093E9", "#80D0C7"], "to bottom"),
    GradientOption(["#8EC5FC", "#E0C3FC"], "to bottom"),
    GradientOption(["#85FFBD", "#FFFB7D"], "to bottom"),
    GradientOption(["#FA8BFF", "#2BD2FF", "#2BFF88"], "to bottom right"),
    GradientOption(["#FBAB7E", "#F7CE68"], "to top"),
    GradientOption(["#FF9A8B", "#FF6A88", "#FF99AC"], "to bottom right"),
    GradientOption(["#FCCB90", "#D57EEB"], "to bottom right"),
    GradientOption(["#A9C9FF", "#FFBBEC"], "to bottom right"),
    GradientOption(["#74EBD5", "#9FACE6"], "to bottom right"),
    GradientOption(["#6E45E2", "#88D3CE"], "to bottom right"),
    GradientOption(["#D4FC79", "#96E6A1"], "to bottom right"),
    GradientOption(["#FA709A", "#FEE140"], "to bottom right"),
    GradientOption(["#FF3CAC", "#784BA0", "#2B86C5"], "to bottom right"),
    GradientOption(["#FF6B6B", "#4ECDC4"], "to right"),
    GradientOption(["#FBD3E9", "#BB377D"], "to right"),
    GradientOption(["#00C9FF", "#92FE9D"], "to right"),
    GradientOption(["#F857A6", "#FF5858"], "to right")]

  /** The four pattern buttons. */
  const PatternChoices: seq<PatternKind> := [NoPattern, Grid, Dots, Graph]

  /** The two tabs, 'color' and 'gradient'. */
  const TabKinds: seq<BackgroundKind> := [ColorBackground, GradientBackground]

  /** What the opacity slider can report: integers from 0 to 100. */
  type OpacityValue = v: int | 0 <= v <= 100

  /** The two custom gradient colour inputs. */
  datatype Slot = First | Second {
    function Index(): nat {
      if First? then 0 else 1
    }
  }

  /** A user action on the panel; indices name a button of the corresponding table. */
  datatype Action =
    | SelectTab(tab: nat)
    | ClickSwatch(swatch: nat)
    | PickColor(color: string)
    | ClickGradient(option: nat)
    | PickGradientColor(slot: Slot, color: string)
    | ClickDirection(direction: nat)
    | ClickPattern(pattern: nat)
    | PickPatternColor(color: string)
    | SlideOpacity(value: OpacityValue)

  predicate SwatchHighlighted(i: nat, o: CustomizationOptions)
    requires i < |Swatches|
  {
    Swatches[i] == o.backgroundColor
  }

  /** `JSON.stringify` equality of two string arrays is equality of the arrays. */
  predicate GradientHighlighted(i: nat, o: CustomizationOptions)
    requires i < |GradientOptions|
  {
    GradientOptions[i].colors == o.gradientColors && GradientOptions[i].direction == o.gradientDirection
  }

  predicate DirectionHighlighted(i: nat, o: CustomizationOptions)
    requires i < |Directions|
  {
    Directions[i] == o.gradientDirection
  }

  /** The pattern colour and opacity controls are rendered only for a pattern other than 'none'. */
  predicate PatternControlsShown(o: CustomizationOptions) {
    o.patternType != NoPattern
  }

  /** A custom gradient input: the edited slot takes the new colour, the other keeps its current one. */
  function EditedPair(colors: seq<string>, slot: Slot, color: string): (r: seq<string>)
    ensures |r| == 2
    ensures r[slot.Index()] == color
    ensures r[1 - slot.Index()] == Preview.ColorAt(colors, 1 - slot.Index())
  {
    match slot
    case First => [color, Preview.ColorAt(colors, 1)]
    case Second => [Preview.ColorAt(colors, 0), color]
  }

  /** The background and pattern keys, the only ones the panel writes. */
  predicate BackgroundKey(k: Key) {
    k in {BackgroundType, BackgroundColor, GradientColors, GradientDirection, PatternType, PatternColor, PatternOpacity}
  }

  /**
    The `updateOption` calls one action makes, given the options the panel
    shows. A button index past its table names no button and makes no call;
    the pattern colour and opacity controls make none while they are hidden.
   */
  function Emits(o: CustomizationOptions, a: Action): (r: seq<Update>)
    ensures a.SelectTab? ==> r == if a.tab < |TabKinds| then [SetBackgroundType(TabKinds[a.tab])] else []
    ensures a.ClickSwatch? ==> r == if a.swatch < |Swatches| then [SetBackgroundColor(Swatches[a.swatch])] else []
    ensures a.PickColor? ==> r == [SetBackgroundColor(a.color)]
    ensures a.ClickGradient? && a.option < |GradientOptions| ==>
      r == [SetGradientColors(GradientOptions[a.option].colors), SetGradientDirection(GradientOptions[a.option].direction)]
    ensures a.ClickGradient? && a.option >= |GradientOptions| ==> r == []
    ensures a.PickGradientColor? ==> r == [SetGradientColors(EditedPair(o.gradientColors, a.slot, a.color))]
    ensures a.ClickDirection? ==> r == if a.direction < |Directions| then [SetGradientDirection(Directions[a.direction])] else []
    ensures a.ClickPattern? ==> r == if a.pattern < |PatternChoices| then [SetPatternType(PatternChoices[a.pattern])] else []
    ensures a.PickPatternColor? ==> r == if PatternControlsShown(o) then [SetPatternColor(a.color)] else []
    ensures a.SlideOpacity? ==> r == if PatternControlsShown(o) then [SetPatternOpacity(a.value)] else []
  {
    match a
    case SelectTab(t) => if t < |TabKinds| then [SetBackgroundType(TabKinds[t])] else []
    case ClickSwatch(i) => if i < |Swatches| then [SetBackgroundColor(Swatches[i])] else []
    case PickColor(c) => [SetBackgroundColor(c)]
    case ClickGradient(i) =>
      if i < |GradientOptions| then
        [SetGradientColors(GradientOptions[i].colors), SetGradientDirection(GradientOptions[i].direction)]
      else []
    case PickGradientColor(slot, c) => [SetGradientColors(EditedPair(o.gradientColors, slot, c))]
    case ClickDirection(i) => if i < |Directions| then [SetGradientDirection(Directions[i])] else []
    case ClickPattern(i) => if i < |PatternChoices| then [SetPatternType(PatternChoices[i])] else []
    case PickPatternColor(c) => if PatternControlsShown(o) then [SetPatternColor(c)] else []
    case SlideOpacity(v) => if PatternControlsShown(o) then [SetPatternOpacity(v)] else []
  }

  /** The panel writes only background and pattern keys: never the text, the images or the positions. */
  lemma EmitsOnlyBackgroundKeys(o: CustomizationOptions, a: Action)
    ensures forall j :: 0 <= j < |Emits(o, a)| ==> BackgroundKey(Emits(o, a)[j].Key())
  {
  }

  /** The panel only ever sets the background type to 'color' or 'gradient'. */
  lemma TabsOnlyColorOrGradient(o: CustomizationOptions, a: Action, j: nat)
    requires j < |Emits(o, a)| && Emits(o, a)[j].SetBackgroundType?
    ensures Emits(o, a)[j].kind == ColorBackground || Emits(o, a)[j].kind == GradientBackground
  {
  }

  /** With the controls hidden, the pattern colour and opacity cannot change. */
  lemma HiddenPatternControlsEmitNothing(o: CustomizationOptions, c: string, v: OpacityValue)
    requires !PatternControlsShown(o)
    ensures Emits(o, PickPatternColor(c)) == [] && Emits(o, SlideOpacity(v)) == []
  {
  }

  /** The swatches are pairwise distinct. */
  lemma SwatchesDistinct()
    ensures forall i, j :: 0 <= i < j < |Swatches| ==> Swatches[i] != Swatches[j]
  {
  }

  /** At most one swatch is highlighted. */
  lemma AtMostOneSwatch(o: CustomizationOptions, i: nat, j: nat)
    requires i < |Swatches| && j < |Swatches|
    requires SwatchHighlighted(i, o) && SwatchHighlighted(j, o)
    ensures i == j
  {
    SwatchesDistinct();
  }

  /** Clicking a swatch makes it, and only it, the highlighted one. */
  lemma ClickedSwatchIsHighlighted(o: CustomizationOptions, i: nat, j: nat)
    requires i < |Swatches| && j < |Swatches|
    ensures SwatchHighlighted(j, ApplyAll(o, Emits(o, ClickSwatch(i)))) <==> j == i
  {
    SwatchesDistinct();
  }

  /** The gradient presets are pairwise distinct. */
  lemma GradientOptionsDistinct()
    ensures forall i, j :: 0 <= i < j < |GradientOptions| ==> GradientOptions[i] != GradientOptions[j]
  {
  }

  /** Clicking a preset stores its full colour list and its direction, and highlights it and no other. */
  lemma ClickedGradientIsHighlighted(o: CustomizationOptions, i: nat, j: nat)
    requires i < |GradientOptions| && j < |GradientOptions|
    ensures ApplyAll(o, Emits(o, ClickGradient(i))).gradientColors == GradientOptions[i].colors
    ensures ApplyAll(o, Emits(o, ClickGradient(i))).gradientDirection == GradientOptions[i].direction
    ensures GradientHighlighted(j, ApplyAll(o, Emits(o, ClickGradient(i)))) <==> j == i
  {
    var g := GradientOptions[i];
    var us := Emits(o, ClickGradient(i));
    assert us == [SetGradientColors(g.colors), SetGradientDirection(g.direction)];
    var o1 := Apply(o, us[0]);
    var o2 := Apply(o1, us[1..][0]);
    assert ApplyAll(o, us) == ApplyAll(o1, us[1..]);
    assert us[1..][1..] == [];
    assert ApplyAll(o1, us[1..]) == ApplyAll(o2, us[1..][1..]) == o2;
    GradientOptionsDistinct();
  }

  /** Exactly the presets 6, 8 and 15 emit three colours; all others emit two. */
  lemma ThreeColorPresets(i: nat)
    requires i < |GradientOptions|
    ensures |GradientOptions[i].colors| == (if i == 6 || i == 8 || i == 15 then 3 else 2)
  {
  }

  /** A custom colour edit after a three-colour preset drops the third colour. */
  lemma CustomEditAfterPresetHasTwoColors(o: CustomizationOptions, slot: Slot, c: string)
    ensures |ApplyAll(o, Emits(o, PickGradientColor(slot, c))).gradientColors| == 2
  {
  }

  /** The direction buttons are pairwise distinct. */
  lemma DirectionsDistinct()
    ensures forall i, j :: 0 <= i < j < |Directions| ==> Directions[i] != Directions[j]
  {
  }

  /** Clicking a direction button sets that direction, which then highlights it and no other. */
  lemma ClickedDirectionIsHighlighted(o: CustomizationOptions, i: nat, j: nat)
    requires i < |Directions| && j < |Directions|
    ensures ApplyAll(o, Emits(o, ClickDirection(i))).gradientDirection == Directions[i]
    ensures DirectionHighlighted(j, ApplyAll(o, Emits(o, ClickDirection(i)))) <==> j == i
  {
    DirectionsDistinct();
  }
}
