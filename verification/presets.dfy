/**
  The six responsive presets of the cover-photo builder and the width policy
  that picks one of them while the user has not edited anything yet.
 */
module Presets {
  import opened Wrappers
  import opened Options

  /** The six preset records, narrowest viewport first. */
  datatype Preset = Mobile | SmallMedium | Medium | MediumLarge | Large | Desktop

  /** The ascending viewport widths, in pixels, at which the next wider preset takes over. */
  const Breakpoints: seq<int> := [768, 900, 1024, 1200, 1400]

  /** The presets in ascending order of width. */
  const Ladder: seq<Preset> := [Mobile, SmallMedium, Medium, MediumLarge, Large, Desktop]

  /**
    The resize handler's choice for `window.innerWidth == width`: the preset
    whose rank counts exactly the breakpoints the width has reached.
   */
  function PresetFor(width: int): (p: Preset)
    ensures forall i :: 0 <= i < |Breakpoints| ==> (Breakpoints[i] <= width <==> i < Rank(p))
  {
    if width < 768 then Mobile
    else if width < 900 then SmallMedium
    else if width < 1024 then Medium
    else if width < 1200 then MediumLarge
    else if width < 1400 then Large
    else Desktop
  }

  /** The position of a preset on the ladder. */
  function Rank(p: Preset): (i: nat)
    ensures i < |Ladder| && Ladder[i] == p
  {
    match p
    case Mobile => 0
    case SmallMedium => 1
    case Medium => 2
    case MediumLarge => 3
    case Large => 4
    case Desktop => 5
  }

  /** How many of the thresholds `bs` lie at or below `width`. */
  function ThresholdsPassed(bs: seq<int>, width: int): (n: nat)
    ensures n <= |bs|
  {
    if |bs| == 0 then 0 else (if bs[0] <= width then 1 else 0) + ThresholdsPassed(bs[1..], width)
  }

  /**
    The handler's if-chain is the bucket lookup: a width gets the preset whose
    rank is the number of thresholds it has reached, so every width gets exactly
    one preset.
   */
  lemma PresetIsBucket(width: int)
    ensures PresetFor(width) == Ladder[ThresholdsPassed(Breakpoints, width)]
  {
    var b := Breakpoints;
    assert b[1..][1..][1..][1..][1..] == [];
    assert ThresholdsPassed(b[1..][1..][1..][1..], width) == if 1400 <= width then 1 else 0;
    assert ThresholdsPassed(b[1..][1..][1..], width) == (if 1200 <= width then 1 else 0) + ThresholdsPassed(b[1..][1..][1..][1..], width);
    assert ThresholdsPassed(b[1..][1..], width) == (if 1024 <= width then 1 else 0) + ThresholdsPassed(b[1..][1..][1..], width);
    assert ThresholdsPassed(b[1..], width) == (if 900 <= width then 1 else 0) + ThresholdsPassed(b[1..][1..], width);
  }

  /** A wider viewport never gets a narrower preset. */
  lemma PresetMonotone(w1: int, w2: int)
    requires w1 <= w2
    ensures Rank(PresetFor(w1)) <= Rank(PresetFor(w2))
  {
  }

  /** The record each preset stands for. */
  function PresetOptions(p: Preset): CustomizationOptions {
    match p
    case Mobile => MobilePreset
    case SmallMedium => SmallMediumPreset
    case Medium => MediumPreset
    case MediumLarge => MediumLargePreset
    case Large => LargePreset
    case Desktop => DesktopPreset
  }

  /** `mobilePreset`. */
  const MobilePreset: CustomizationOptions := CustomizationOptions(
    title := "THE COOLEST",
    titleFont := "Arial Black",
    titleSize := "48",
    titleColor := "#26309d",
    subtitle := "Skool Group!",
    subtitleFont := "Arial Black",
    subtitleSize := "28",
    subtitleColor := "#e44434",
    images := [Image("pencil", "/pencil.png", 100, Position(70, 50))],
    backgroundType := GradientBackground,
    backgroundColor := "#5f90fd",
    gradientColors := ["#e7b358", "#f2cb88"],
    gradientDirection := "to bottom right",
    patternType := Graph,
    backgroundImage := None,
    titlePosition := Position(10, 20),
    subtitlePosition := Position(10, 40),
    patternColor := "#50b9f3",
    patternOpacity := 17)

  /** `smallMediumPreset`. */
  const SmallMediumPreset: CustomizationOptions := CustomizationOptions(
    title := "THE COOLEST",
    titleFont := "Arial Black",
    titleSize := "72",
    titleColor := "#26309d",
    subtitle := "Skool Group!",
    subtitleFont := "Arial Black",
    subtitleSize := "40",
    subtitleColor := "#e44434",
    images := [Image("pencil", "/pencil.png", 149, Position(70, 50))],
    backgroundType := GradientBackground,
    backgroundColor := "#5f90fd",
    gradientColors := ["#e7b358", "#f2cb88"],
    gradientDirection := "to bottom right",
    patternType := Graph,
    backgroundImage := None,
    titlePosition := Position(10, 20),
    subtitlePosition := Position(10, 40),
    patternColor := "#50b9f3",
    patternOpacity := 17)

  /** `mediumPreset`. */
  const MediumPreset: CustomizationOptions := CustomizationOptions(
    title := "THE COOLEST",
    titleFont := "Arial Black",
    titleSize := "72",
    titleColor := "#26309d",
    subtitle := "Skool Group!",
    subtitleFont := "Arial Black",
    subtitleSize := "40",
    subtitleColor := "#e44434",
    images := [Image("pencil", "/pencil.png", 149, Position(70, 50))],
    backgroundType := GradientBackground,
    backgroundColor := "#5f90fd",
    gradientColors := ["#e7b358", "#f2cb88"],
    gradientDirection := "to bottom right",
    patternType := Graph,
    backgroundImage := None,
    titlePosition := Position(10, 20),
    subtitlePosition := Position(10, 40),
    patternColor := "#50b9f3",
    patternOpacity := 17)

  /** `mediumLargePreset`. */
  const MediumLargePreset: CustomizationOptions := CustomizationOptions(
    title := "THE COOLEST",
    titleFont := "Arial Black",
    titleSize := "72",
    titleColor := "#26309d",
    subtitle := "Skool Group!",
    subtitleFont := "Arial Black",
    subtitleSize := "40",
    subtitleColor := "#e44434",
    images := [Image("pencil", "/pencil.png", 133, Position(70, 50))],
    backgroundType := GradientBackground,
    backgroundColor := "#5f90fd",
    gradientColors := ["#e7b358", "#f2cb88"],
    gradientDirection := "to bottom right",
    patternType := Graph,
    backgroundImage := None,
    titlePosition := Position(10, 20),
    subtitlePosition := Position(10, 40),
    patternColor := "#50b9f3",
    patternOpacity := 17)

  /** `largePreset`. */
  const LargePreset: CustomizationOptions := CustomizationOptions(
    title := "THE COOLEST",
    titleFont := "Arial Black",
    titleSize := "72",
    titleColor := "#26309d",
    subtitle := "Skool Group!",
    subtitleFont := "Arial Black",
    subtitleSize := "40",
    subtitleColor := "#e44434",
    images := [Image("pencil", "/pencil.png", 190, Position(70, 50))],
    backgroundType := GradientBackground,
    backgroundColor := "#5f90fd",
    gradientColors := ["#e7b358", "#f2cb88"],
    gradientDirection := "to bottom right",
    patternType := Graph,
    backgroundImage := None,
    titlePosition := Position(10, 20),
    subtitlePosition := Position(10, 40),
    patternColor := "#50b9f3",
    patternOpacity := 17)

  /** `desktopPreset`. */
  const DesktopPreset: CustomizationOptions := CustomizationOptions(
    title := "THE COOLEST",
    titleFont := "Arial Black",
    titleSize := "72",
    titleColor := "#26309d",
    subtitle := "Skool Group!",
    subtitleFont := "Arial Black",
    subtitleSize := "40",
    subtitleColor := "#e44434",
    images := [Image("pencil", "/pencil.png", 190, Position(70, 50))],
    backgroundType := GradientBackground,
    backgroundColor := "#5f90fd",
    gradientColors := ["#e7b358", "#f2cb88"],
    gradientDirection := "to bottom right",
    patternType := Graph,
    backgroundImage := None,
    titlePosition := Position(10, 20),
    subtitlePosition := Position(10, 40),
    patternColor := "#50b9f3",
    patternOpacity := 17)

  /** The keys on which presets are allowed to differ. */
  predicate SizeKey(k: Key) {
    k == TitleSize || k == SubtitleSize || k == Images
  }

  /**
    Any two presets agree on every field except the two text sizes and the
    pencil image's size: both hold exactly one image, equal once sizes are
    ignored.
   */
  lemma PresetsAgreeExceptSizes(p: Preset, q: Preset)
    ensures forall k :: !SizeKey(k) ==> Get(PresetOptions(p), k) == Get(PresetOptions(q), k)
    ensures |PresetOptions(p).images| == 1 && |PresetOptions(q).images| == 1
    ensures PresetOptions(p).images[0].(size := 0) == PresetOptions(q).images[0].(size := 0)
  {
    AgreesWithMobile(p);
    AgreesWithMobile(q);
  }

  /** Each preset agrees with the mobile one on every field except the title, subtitle and pencil sizes. */
  lemma AgreesWithMobile(p: Preset)
    ensures forall k :: !SizeKey(k) ==> Get(PresetOptions(p), k) == Get(PresetOptions(Mobile), k)
    ensures |PresetOptions(p).images| == 1
    ensures PresetOptions(p).images[0].(size := 0) == PresetOptions(Mobile).images[0].(size := 0)
  {
  }

  /** The pencil's size in each preset, from narrowest to widest. */
  const PencilSizes: seq<int> := [100, 149, 149, 133, 190, 190]

  /** Only the mobile preset uses the 48/28 text sizes; the pencil sizes follow the table above. */
  lemma PresetSizes(p: Preset)
    ensures PresetOptions(p).titleSize == (if p == Mobile then "48" else "72")
    ensures PresetOptions(p).subtitleSize == (if p == Mobile then "28" else "40")
    ensures PresetOptions(p).images[0].size == PencilSizes[Rank(p)]
  {
  }

  /** The pencil shrinks when the viewport grows from 1023 to 1024 pixels: size is not monotone in width. */
  lemma PencilSizeNotMonotone()
    ensures exists w1, w2 :: w1 < w2 && PresetOptions(PresetFor(w1)).images[0].size > PresetOptions(PresetFor(w2)).images[0].size
  {
    assert PresetOptions(PresetFor(1023)).images[0].size == 149;
    assert PresetOptions(PresetFor(1024)).images[0].size == 133;
  }
}
