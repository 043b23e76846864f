/**
  The customisation record the cover-photo builder keeps in its state, and the
  one way the builder changes it: `updateOption(key, value)`, which copies the
  record with one field replaced.
 */
module Options {
  import opened Wrappers

  /** An offset in whole pixels from the preview's top-left corner (drag offsets are rounded). */
  datatype Position = Position(x: int, y: int)

  /** An image laid over the background; `size` is the side of its square box in pixels. */
  datatype Image = Image(id: string, url: string, size: int, position: Position)

  /** `backgroundType`: 'color' | 'gradient' | 'pattern' | 'image'. */
  datatype BackgroundKind = ColorBackground | GradientBackground | PatternBackground | ImageBackground

  /** `patternType`: 'none' | 'grid' | 'dots' | 'graph'. */
  datatype PatternKind = NoPattern | Grid | Dots | Graph

  /**
    The builder's `CustomizationOptions`. Sizes of text stay strings, as in the
    source. `gradientColors` is declared a pair there, but a gradient preset can
    store three colours through a cast, so it is a sequence here.
   */
  datatype CustomizationOptions = CustomizationOptions(
    title: string,
    titleFont: string,
    titleSize: string,
    titleColor: string,
    subtitle: string,
    subtitleFont: string,
    subtitleSize: string,
    subtitleColor: string,
    images: seq<Image>,
    backgroundType: BackgroundKind,
    backgroundColor: string,
    gradientColors: seq<string>,
    gradientDirection: string,
    patternType: PatternKind,
    backgroundImage: Option<string>,
    titlePosition: Position,
    subtitlePosition: Position,
    patternColor: string,
    patternOpacity: int)

  /** `keyof CustomizationOptions`. */
  datatype Key =
    | Title | TitleFont | TitleSize | TitleColor
    | Subtitle | SubtitleFont | SubtitleSize | SubtitleColor
    | Images | BackgroundType | BackgroundColor | GradientColors | GradientDirection
    | PatternType | BackgroundImage | TitlePosition | SubtitlePosition
    | PatternColor | PatternOpacity

  /** The value stored under some key, whatever its type. */
  datatype Value =
    | Text(text: string)
    | ImageList(list: seq<Image>)
    | Kind(kind: BackgroundKind)
    | Colors(colors: seq<string>)
    | Pattern(pattern: PatternKind)
    | Url(url: Option<string>)
    | At(at: Position)
    | Number(number: int)

  /** Reads one field by key: `options[key]`. */
  function Get(o: CustomizationOptions, k: Key): Value {
    match k
    case Title => Text(o.title)
    case TitleFont => Text(o.titleFont)
    case TitleSize => Text(o.titleSize)
    case TitleColor => Text(o.titleColor)
    case Subtitle => Text(o.subtitle)
    case SubtitleFont => Text(o.subtitleFont)
    case SubtitleSize => Text(o.subtitleSize)
    case SubtitleColor => Text(o.subtitleColor)
    case Images => ImageList(o.images)
    case BackgroundType => Kind(o.backgroundType)
    case BackgroundColor => Text(o.backgroundColor)
    case GradientColors => Colors(o.gradientColors)
    case GradientDirection => Text(o.gradientDirection)
    case PatternType => Pattern(o.patternType)
    case BackgroundImage => Url(o.backgroundImage)
    case TitlePosition => At(o.titlePosition)
    case SubtitlePosition => At(o.subtitlePosition)
    case PatternColor => Text(o.patternColor)
    case PatternOpacity => Number(o.patternOpacity)
  }

  /** The arguments of one `updateOption(key, value)` call, the value typed by its key. */
  datatype Update =
    | SetTitle(text: string)
    | SetTitleFont(text: string)
    | SetTitleSize(text: string)
    | SetTitleColor(text: string)
    | SetSubtitle(text: string)
    | SetSubtitleFont(text: string)
    | SetSubtitleSize(text: string)
    | SetSubtitleColor(text: string)
    | SetImages(images: seq<Image>)
    | SetBackgroundType(kind: BackgroundKind)
    | SetBackgroundColor(text: string)
    | SetGradientColors(colors: seq<string>)
    | SetGradientDirection(text: string)
    | SetPatternType(pattern: PatternKind)
    | SetBackgroundImage(url: Option<string>)
    | SetTitlePosition(at: Position)
    | SetSubtitlePosition(at: Position)
    | SetPatternColor(text: string)
    | SetPatternOpacity(number: int)
  {
    /** The key the call names. */
    function Key(): Key {
      match this
      case SetTitle(_) => Title
      case SetTitleFont(_) => TitleFont
      case SetTitleSize(_) => TitleSize
      case SetTitleColor(_) => TitleColor
      case SetSubtitle(_) => Subtitle
      case SetSubtitleFont(_) => SubtitleFont
      case SetSubtitleSize(_) => SubtitleSize
      case SetSubtitleColor(_) => SubtitleColor
      case SetImages(_) => Images
      case SetBackgroundType(_) => BackgroundType
      case SetBackgroundColor(_) => BackgroundColor
      case SetGradientColors(_) => GradientColors
      case SetGradientDirection(_) => GradientDirection
      case SetPatternType(_) => PatternType
      case SetBackgroundImage(_) => BackgroundImage
      case SetTitlePosition(_) => TitlePosition
      case SetSubtitlePosition(_) => SubtitlePosition
      case SetPatternColor(_) => PatternColor
      case SetPatternOpacity(_) => PatternOpacity
    }

    /** The value the call stores. */
    function Value(): Value {
      match this
      case SetTitle(t) => Text(t)
      case SetTitleFont(t) => Text(t)
      case SetTitleSize(t) => Text(t)
      case SetTitleColor(t) => Text(t)
      case SetSubtitle(t) => Text(t)
      case SetSubtitleFont(t) => Text(t)
      case SetSubtitleSize(t) => Text(t)
      case SetSubtitleColor(t) => Text(t)
      case SetImages(l) => ImageList(l)
      case SetBackgroundType(k) => Kind(k)
      case SetBackgroundColor(t) => Text(t)
      case SetGradientColors(c) => Colors(c)
      case SetGradientDirection(t) => Text(t)
      case SetPatternType(p) => Pattern(p)
      case SetBackgroundImage(u) => Url(u)
      case SetTitlePosition(p) => At(p)
      case SetSubtitlePosition(p) => At(p)
      case SetPatternColor(t) => Text(t)
      case SetPatternOpacity(n) => Number(n)
    }
  }

  /** `{ ...prev, [key]: value }`: the named field holds the new value, every other field is kept. */
  function Apply(o: CustomizationOptions, u: Update): (r: CustomizationOptions)
    ensures Get(r, u.Key()) == u.Value()
    ensures forall k :: k != u.Key() ==> Get(r, k) == Get(o, k)
  {
    CustomizationOptions(
      if u.SetTitle? then u.text else o.title,
      if u.SetTitleFont? then u.text else o.titleFont,
      if u.SetTitleSize? then u.text else o.titleSize,
      if u.SetTitleColor? then u.text else o.titleColor,
      if u.SetSubtitle? then u.text else o.subtitle,
      if u.SetSubtitleFont? then u.text else o.subtitleFont,
      if u.SetSubtitleSize? then u.text else o.subtitleSize,
      if u.SetSubtitleColor? then u.text else o.subtitleColor,
      if u.SetImages? then u.images else o.images,
      if u.SetBackgroundType? then u.kind else o.backgroundType,
      if u.SetBackgroundColor? then u.text else o.backgroundColor,
      if u.SetGradientColors? then u.colors else o.gradientColors,
      if u.SetGradientDirection? then u.text else o.gradientDirection,
      if u.SetPatternType? then u.pattern else o.patternType,
      if u.SetBackgroundImage? then u.url else o.backgroundImage,
      if u.SetTitlePosition? then u.at else o.titlePosition,
      if u.SetSubtitlePosition? then u.at else o.subtitlePosition,
      if u.SetPatternColor? then u.text else o.patternColor,
      if u.SetPatternOpacity? then u.number else o.patternOpacity)
  }

  /** Several `updateOption` calls in order. */
  function ApplyAll(o: CustomizationOptions, us: seq<Update>): CustomizationOptions
    decreases |us|
  {
    if |us| == 0 then o else ApplyAll(Apply(o, us[0]), us[1..])
  }

  /** Agreement on every key gives agreement on the text fields. */
  lemma SameTextFields(a: CustomizationOptions, b: CustomizationOptions)
    requires forall k :: Get(a, k) == Get(b, k)
    ensures a.title == b.title && a.titleFont == b.titleFont && a.titleSize == b.titleSize && a.titleColor == b.titleColor
    ensures a.subtitle == b.subtitle && a.subtitleFont == b.subtitleFont
    ensures a.subtitleSize == b.subtitleSize && a.subtitleColor == b.subtitleColor
  {
    assert Get(a, Title) == Get(b, Title);
    assert Get(a, TitleFont) == Get(b, TitleFont);
    assert Get(a, TitleSize) == Get(b, TitleSize);
    assert Get(a, TitleColor) == Get(b, TitleColor);
    assert Get(a, Subtitle) == Get(b, Subtitle);
    assert Get(a, SubtitleFont) == Get(b, SubtitleFont);
    assert Get(a, SubtitleSize) == Get(b, SubtitleSize);
    assert Get(a, SubtitleColor) == Get(b, SubtitleColor);
  }

  /** Agreement on every key gives agreement on the list and optional fields. */
  lemma SameListFields(a: CustomizationOptions, b: CustomizationOptions)
    requires forall k :: Get(a, k) == Get(b, k)
    ensures a.images == b.images && a.gradientColors == b.gradientColors && a.backgroundImage == b.backgroundImage
  {
    assert Get(a, Images) == Get(b, Images);
    assert Get(a, GradientColors) == Get(b, GradientColors);
    assert Get(a, BackgroundImage) == Get(b, BackgroundImage);
  }

  /** Agreement on every key gives agreement on the background and pattern fields. */
  lemma SameStyleFields(a: CustomizationOptions, b: CustomizationOptions)
    requires forall k :: Get(a, k) == Get(b, k)
    ensures a.backgroundType == b.backgroundType && a.backgroundColor == b.backgroundColor
    ensures a.gradientDirection == b.gradientDirection && a.patternType == b.patternType
    ensures a.patternColor == b.patternColor && a.patternOpacity == b.patternOpacity
  {
    assert Get(a, BackgroundType) == Get(b, BackgroundType);
    assert Get(a, BackgroundColor) == Get(b, BackgroundColor);
    assert Get(a, GradientDirection) == Get(b, GradientDirection);
    assert Get(a, PatternType) == Get(b, PatternType);
    assert Get(a, PatternColor) == Get(b, PatternColor);
    assert Get(a, PatternOpacity) == Get(b, PatternOpacity);
  }

  /** Agreement on every key gives agreement on the text positions. */
  lemma SamePositions(a: CustomizationOptions, b: CustomizationOptions)
    requires forall k :: Get(a, k) == Get(b, k)
    ensures a.titlePosition == b.titlePosition && a.subtitlePosition == b.subtitlePosition
  {
    assert Get(a, TitlePosition) == Get(b, TitlePosition);
    assert Get(a, SubtitlePosition) == Get(b, SubtitlePosition);
  }

  /** Two records that agree on every key are the same record: `Get` sees all of a record. */
  lemma SameFieldsSameOptions(a: CustomizationOptions, b: CustomizationOptions)
    requires forall k :: Get(a, k) == Get(b, k)
    ensures a == b
  {
    SameTextFields(a, b);
    SameListFields(a, b);
    SameStyleFields(a, b);
    SamePositions(a, b);
  }

  /** Storing a field's current value back changes nothing. */
  lemma ApplyCurrentValue(o: CustomizationOptions, u: Update)
    requires u.Value() == Get(o, u.Key())
    ensures Apply(o, u) == o
  {
    SameFieldsSameOptions(Apply(o, u), o);
  }

  /** A later update to the same key overwrites an earlier one completely. */
  lemma LastWriteWins(o: CustomizationOptions, u: Update, v: Update)
    requires u.Key() == v.Key()
    ensures Apply(Apply(o, u), v) == Apply(o, v)
  {
    SameFieldsSameOptions(Apply(Apply(o, u), v), Apply(o, v));
  }

  /** An update's key names its constructor, and so its field. */
  lemma KeyNamesField(u: Update)
    ensures u.SetTitle? <==> u.Key() == Title
    ensures u.SetTitleFont? <==> u.Key() == TitleFont
    ensures u.SetTitleSize? <==> u.Key() == TitleSize
    ensures u.SetTitleColor? <==> u.Key() == TitleColor
    ensures u.SetSubtitle? <==> u.Key() == Subtitle
    ensures u.SetSubtitleFont? <==> u.Key() == SubtitleFont
    ensures u.SetSubtitleSize? <==> u.Key() == SubtitleSize
    ensures u.SetSubtitleColor? <==> u.Key() == SubtitleColor
    ensures u.SetImages? <==> u.Key() == Images
    ensures u.SetBackgroundType? <==> u.Key() == BackgroundType
    ensures u.SetBackgroundColor? <==> u.Key() == BackgroundColor
    ensures u.SetGradientColors? <==> u.Key() == GradientColors
    ensures u.SetGradientDirection? <==> u.Key() == GradientDirection
    ensures u.SetPatternType? <==> u.Key() == PatternType
    ensures u.SetBackgroundImage? <==> u.Key() == BackgroundImage
    ensures u.SetTitlePosition? <==> u.Key() == TitlePosition
    ensures u.SetSubtitlePosition? <==> u.Key() == SubtitlePosition
    ensures u.SetPatternColor? <==> u.Key() == PatternColor
    ensures u.SetPatternOpacity? <==> u.Key() == PatternOpacity
  {
  }

  /** Two updates to different keys never write the same field. */
  lemma NotBothSet(u: Update, v: Update)
    requires u.Key() != v.Key()
    ensures !(u.SetTitle? && v.SetTitle?)
    ensures !(u.SetTitleFont? && v.SetTitleFont?)
    ensures !(u.SetTitleSize? && v.SetTitleSize?)
    ensures !(u.SetTitleColor? && v.SetTitleColor?)
    ensures !(u.SetSubtitle? && v.SetSubtitle?)
    ensures !(u.SetSubtitleFont? && v.SetSubtitleFont?)
    ensures !(u.SetSubtitleSize? && v.SetSubtitleSize?)
    ensures !(u.SetSubtitleColor? && v.SetSubtitleColor?)
    ensures !(u.SetImages? && v.SetImages?)
    ensures !(u.SetBackgroundType? && v.SetBackgroundType?)
    ensures !(u.SetBackgroundColor? && v.SetBackgroundColor?)
    ensures !(u.SetGradientColors? && v.SetGradientColors?)
    ensures !(u.SetGradientDirection? && v.SetGradientDirection?)
    ensures !(u.SetPatternType? && v.SetPatternType?)
    ensures !(u.SetBackgroundImage? && v.SetBackgroundImage?)
    ensures !(u.SetTitlePosition? && v.SetTitlePosition?)
    ensures !(u.SetSubtitlePosition? && v.SetSubtitlePosition?)
    ensures !(u.SetPatternColor? && v.SetPatternColor?)
    ensures !(u.SetPatternOpacity? && v.SetPatternOpacity?)
  {
    KeyNamesField(u);
    KeyNamesField(v);
  }

  /** Two updates that never both write one of these fields, in either order, leave the same title text and style. */
  lemma CommuteTitleFields(o: CustomizationOptions, u: Update, v: Update)
    requires !(u.SetTitle? && v.SetTitle?) && !(u.SetTitleFont? && v.SetTitleFont?)
    requires !(u.SetTitleSize? && v.SetTitleSize?) && !(u.SetTitleColor? && v.SetTitleColor?)
    ensures Apply(Apply(o, u), v).title == Apply(Apply(o, v), u).title && Apply(Apply(o, u), v).titleFont == Apply(Apply(o, v), u).titleFont
    ensures Apply(Apply(o, u), v).titleSize == Apply(Apply(o, v), u).titleSize && Apply(Apply(o, u), v).titleColor == Apply(Apply(o, v), u).titleColor
  {
  }

  /** Two updates that never both write one of these fields, in either order, leave the same subtitle text and style. */
  lemma CommuteSubtitleFields(o: CustomizationOptions, u: Update, v: Update)
    requires !(u.SetSubtitle? && v.SetSubtitle?) && !(u.SetSubtitleFont? && v.SetSubtitleFont?)
    requires !(u.SetSubtitleSize? && v.SetSubtitleSize?) && !(u.SetSubtitleColor? && v.SetSubtitleColor?)
    ensures Apply(Apply(o, u), v).subtitle == Apply(Apply(o, v), u).subtitle && Apply(Apply(o, u), v).subtitleFont == Apply(Apply(o, v), u).subtitleFont
    ensures Apply(Apply(o, u), v).subtitleSize == Apply(Apply(o, v), u).subtitleSize && Apply(Apply(o, u), v).subtitleColor == Apply(Apply(o, v), u).subtitleColor
  {
  }

  /** Two updates that never both write one of these fields, in either order, leave the same list and optional fields. */
  lemma CommuteListFields(o: CustomizationOptions, u: Update, v: Update)
    requires !(u.SetImages? && v.SetImages?) && !(u.SetGradientColors? && v.SetGradientColors?)
    requires !(u.SetBackgroundImage? && v.SetBackgroundImage?)
    ensures Apply(Apply(o, u), v).images == Apply(Apply(o, v), u).images && Apply(Apply(o, u), v).gradientColors == Apply(Apply(o, v), u).gradientColors
    ensures Apply(Apply(o, u), v).backgroundImage == Apply(Apply(o, v), u).backgroundImage
  {
  }

  /** Two updates that never both write one of these fields, in either order, leave the same background and pattern fields. */
  lemma CommuteStyleFields(o: CustomizationOptions, u: Update, v: Update)
    requires !(u.SetBackgroundType? && v.SetBackgroundType?) && !(u.SetBackgroundColor? && v.SetBackgroundColor?)
    requires !(u.SetGradientDirection? && v.SetGradientDirection?) && !(u.SetPatternType? && v.SetPatternType?)
    requires !(u.SetPatternColor? && v.SetPatternColor?) && !(u.SetPatternOpacity? && v.SetPatternOpacity?)
    ensures Apply(Apply(o, u), v).backgroundType == Apply(Apply(o, v), u).backgroundType && Apply(Apply(o, u), v).backgroundColor == Apply(Apply(o, v), u).backgroundColor
    ensures Apply(Apply(o, u), v).gradientDirection == Apply(Apply(o, v), u).gradientDirection && Apply(Apply(o, u), v).patternType == Apply(Apply(o, v), u).patternType
    ensures Apply(Apply(o, u), v).patternColor == Apply(Apply(o, v), u).patternColor && Apply(Apply(o, u), v).patternOpacity == Apply(Apply(o, v), u).patternOpacity
  {
  }

  /** Two updates that never both write one of these fields, in either order, leave the same text positions. */
  lemma CommutePositions(o: CustomizationOptions, u: Update, v: Update)
    requires !(u.SetTitlePosition? && v.SetTitlePosition?) && !(u.SetSubtitlePosition? && v.SetSubtitlePosition?)
    ensures Apply(Apply(o, u), v).titlePosition == Apply(Apply(o, v), u).titlePosition && Apply(Apply(o, u), v).subtitlePosition == Apply(Apply(o, v), u).subtitlePosition
  {
  }

  /** Updates to different keys commute. */
  lemma DistinctKeysCommute(o: CustomizationOptions, u: Update, v: Update)
    requires u.Key() != v.Key()
    ensures Apply(Apply(o, u), v) == Apply(Apply(o, v), u)
  {
    NotBothSet(u, v);
    CommuteTitleFields(o, u, v);
    CommuteSubtitleFields(o, u, v);
    CommuteListFields(o, u, v);
    CommuteStyleFields(o, u, v);
    CommutePositions(o, u, v);
  }
}
