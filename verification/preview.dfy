/**
  The cover-photo preview: the background style, the pattern overlay, the
  order in which layers are drawn, and what a drag reports. Styles are kept as
  small records of CSS properties; an absent property is `None`.
 */
module Preview {
  import opened Wrappers
  import opened Decimal
  import opened Options
  import Builder

  /** The background properties the preview may set on its root element. */
  datatype BackgroundStyle = BackgroundStyle(
    backgroundColor: Option<string>,
    backgroundImage: Option<string>,
    backgroundSize: Option<string>,
    backgroundPosition: Option<string>)

  /** The style object `{}`. */
  const NoStyle: BackgroundStyle := BackgroundStyle(None, None, None, None)

  /** `colors[i]` inside a template literal: a missing entry prints as "undefined". */
  function ColorAt(colors: seq<string>, i: nat): string {
    if i < |colors| then colors[i] else "undefined"
  }

  /** The CSS `linear-gradient(direction, c0, c1)` the preview builds from the first two colours. */
  function LinearGradient(direction: string, colors: seq<string>): string {
    "linear-gradient(" + direction + ", " + ColorAt(colors, 0) + ", " + ColorAt(colors, 1) + ")"
  }

  /** An image background is drawn only for a truthy URL: `null` and '' draw nothing. */
  predicate ShowsBackgroundImage(o: CustomizationOptions) {
    o.backgroundType == ImageBackground && o.backgroundImage.Some? && o.backgroundImage.value != ""
  }

  /** `getBackgroundStyle`. */
  function BackgroundStyleOf(o: CustomizationOptions): (r: BackgroundStyle)
    ensures r.backgroundColor.Some? <==> o.backgroundType == ColorBackground
    ensures o.backgroundType == ColorBackground ==> r == NoStyle.(backgroundColor := Some(o.backgroundColor))
    ensures o.backgroundType == GradientBackground ==>
      r == NoStyle.(backgroundImage := Some(LinearGradient(o.gradientDirection, o.gradientColors)))
    ensures r.backgroundSize.Some? <==> ShowsBackgroundImage(o)
    ensures ShowsBackgroundImage(o) ==>
      r == BackgroundStyle(None, Some("url(" + o.backgroundImage.value + ")"), Some("cover"), Some("center"))
    ensures (o.backgroundType == PatternBackground || o.backgroundType == ImageBackground) && !ShowsBackgroundImage(o) ==>
      r == NoStyle
  {
    match o.backgroundType
    case ColorBackground => NoStyle.(backgroundColor := Some(o.backgroundColor))
    case GradientBackground => NoStyle.(backgroundImage := Some(LinearGradient(o.gradientDirection, o.gradientColors)))
    case ImageBackground =>
      if ShowsBackgroundImage(o) then
        BackgroundStyle(None, Some("url(" + o.backgroundImage.value + ")"), Some("cover"), Some("center"))
      else NoStyle
    case PatternBackground => NoStyle
  }

  /** Colours after the second never reach the background: a three-colour preset draws as its first two. */
  lemma GradientUsesFirstTwoColors(o: CustomizationOptions, extra: seq<string>)
    requires |o.gradientColors| == 2
    ensures BackgroundStyleOf(o.(gradientColors := o.gradientColors + extra)) == BackgroundStyleOf(o)
  {
  }

  /** The pieces of `s` between commas. */
  function Fields(s: string): (r: seq<string>)
    ensures |r| > 0
    decreases |s|
  {
    if |s| == 0 then [""]
    else
      var rest := Fields(s[1..]);
      if s[0] == ',' then [""] + rest else [[s[0]] + rest[0]] + rest[1..]
  }

  predicate NoComma(s: string) {
    ',' !in s
  }

  /** Appending `, b` for a comma-free `b` adds one last field, `b` led by its space. */
  lemma {:induction false} FieldsAppendComma(a: string, b: string)
    requires NoComma(b)
    ensures Fields(a + ", " + b) == Fields(a) + [" " + b]
    decreases |a|
  {
    var s := a + ", " + b;
    if |a| == 0 {
      assert s[0] == ',' && s[1..] == " " + b;
      assert NoComma(" " + b);
      FieldsOfCommaFree(" " + b);
    } else {
      assert s[0] == a[0] && s[1..] == a[1..] + ", " + b;
      FieldsAppendComma(a[1..], b);
    }
  }

  lemma {:induction false} FieldsOfCommaFree(a: string)
    requires NoComma(a)
    ensures Fields(a) == [a]
    decreases |a|
  {
    if |a| > 0 {
      FieldsOfCommaFree(a[1..]);
      assert [a[0]] + a[1..] == a;
    }
  }

  /** What a `linear-gradient(d, c0, c1)` value says: its direction and its two colours, in order. */
  datatype GradientParts = GradientParts(direction: string, first: string, second: string)

  const GradientOpen: string := "linear-gradient("

  /** Reads a two-colour `linear-gradient(...)` value back into its parts. */
  function DecodeGradient(css: string): Option<GradientParts> {
    var n := |GradientOpen|;
    if |css| > n && css[..n] == GradientOpen && css[|css| - 1] == ')' then
      var fs := Fields(css[n..|css| - 1]);
      if |fs| == 3 && |fs[1]| > 0 && fs[1][0] == ' ' && |fs[2]| > 0 && fs[2][0] == ' ' then
        Some(GradientParts(fs[0], fs[1][1..], fs[2][1..]))
      else None
    else None
  }

  /** The value is the opening, the comma-separated inside, and a closing parenthesis. */
  lemma GradientFrame(direction: string, colors: seq<string>)
    ensures var css := LinearGradient(direction, colors);
      var n := |GradientOpen|;
      |css| > n && css[..n] == GradientOpen && css[|css| - 1] == ')' &&
      css[n..|css| - 1] == direction + ", " + ColorAt(colors, 0) + ", " + ColorAt(colors, 1)
  {
    var middle := direction + ", " + ColorAt(colors, 0) + ", " + ColorAt(colors, 1);
    var css := LinearGradient(direction, colors);
    assert css == GradientOpen + middle + ")";
    assert css[..|GradientOpen|] == GradientOpen;
    assert css[|GradientOpen|..|css| - 1] == middle;
  }

  /** The inside splits at its two commas into the direction and the two colours, each led by a space. */
  lemma GradientFields(direction: string, c0: string, c1: string)
    requires NoComma(direction) && NoComma(c0) && NoComma(c1)
    ensures Fields(direction + ", " + c0 + ", " + c1) == [direction, " " + c0, " " + c1]
  {
    FieldsOfCommaFree(direction);
    FieldsAppendComma(direction, c0);
    FieldsAppendComma(direction + ", " + c0, c1);
  }

  /**
    The gradient the preview draws carries exactly the direction and the first
    two colours, in that order (for comma-free values, as the editor's
    directions and hex colours are).
   */
  lemma GradientRoundTrip(direction: string, colors: seq<string>)
    requires NoComma(direction) && NoComma(ColorAt(colors, 0)) && NoComma(ColorAt(colors, 1))
    ensures DecodeGradient(LinearGradient(direction, colors)) == Some(GradientParts(direction, ColorAt(colors, 0), ColorAt(colors, 1)))
  {
    var c0, c1 := ColorAt(colors, 0), ColorAt(colors, 1);
    GradientFrame(direction, colors);
    GradientFields(direction, c0, c1);
    assert (" " + c0)[1..] == c0 && (" " + c1)[1..] == c1;
  }

  /** One layer of a pattern's `background-image`. */
  datatype Layer =
    | Dot(color: string, radiusPx: nat)                 // radial-gradient(color r, transparent r)
    | Line(toward: string, color: string, widthPx: nat)  // linear-gradient(toward, color w, transparent w)

  /** One entry of a pattern's `background-size`. */
  datatype Tile = Tile(widthPx: nat, heightPx: nat)

  /** The overlay's style: placement, opacity and blending, and its layers and tiles. */
  datatype PatternStyle = PatternStyle(
    position: string,
    top: int, left: int, right: int, bottom: int,
    pointerEvents: string,
    opacity: real,
    mixBlendMode: string,
    layers: seq<Layer>,
    tiles: seq<Tile>)

  /** The overlay covers the whole preview, ignores the pointer and multiplies onto the background. */
  predicate Covers(p: PatternStyle) {
    p.position == "absolute" && p.top == 0 && p.left == 0 && p.right == 0 && p.bottom == 0
    && p.pointerEvents == "none" && p.mixBlendMode == "multiply"
  }

  /** The layers of each pattern; graph's fine lines use the colour with alpha suffix "40". */
  function PatternLayers(kind: PatternKind, color: string): seq<Layer> {
    match kind
    case NoPattern => []
    case Dots => [Dot(color, 3)]
    case Grid => [Line("to right", color, 1), Line("to bottom", color, 1)]
    case Graph => [Line("to right", color, 1), Line("to bottom", color, 1),
                   Line("to right", color + "40", 1), Line("to bottom", color + "40", 1)]
  }

  /** The `background-size` list of each pattern. */
  function PatternTiles(kind: PatternKind): seq<Tile> {
    match kind
    case NoPattern => []
    case Dots => [Tile(30, 30)]
    case Grid => [Tile(100, 100)]
    case Graph => [Tile(100, 100), Tile(100, 100), Tile(20, 20), Tile(20, 20)]
  }

  /** `getPatternStyle`: no overlay for 'none', otherwise a covering layer at `patternOpacity / 100`. */
  function PatternStyleOf(o: CustomizationOptions): (r: Option<PatternStyle>)
    ensures r.None? <==> o.patternType == NoPattern
    ensures r.Some? ==> Covers(r.value) && r.value.opacity == o.patternOpacity as real / 100.0
    ensures r.Some? ==> r.value.layers == PatternLayers(o.patternType, o.patternColor)
    ensures r.Some? ==> r.value.tiles == PatternTiles(o.patternType)
  {
    if o.patternType == NoPattern then None
    else Some(PatternStyle("absolute", 0, 0, 0, 0, "none", o.patternOpacity as real / 100.0, "multiply",
                           PatternLayers(o.patternType, o.patternColor), PatternTiles(o.patternType)))
  }

  /** CSS repeats a short `background-size` list: layer `i` uses tile `i mod n`. */
  function TileOf(p: PatternStyle, i: nat): Tile
    requires |p.tiles| > 0
  {
    p.tiles[i % |p.tiles|]
  }

  /** Dots: one 3px dot per 30x30 tile. */
  predicate DotsGeometry(p: PatternStyle, color: string) {
    |p.tiles| > 0 && |p.layers| == 1 && p.layers[0] == Dot(color, 3) && TileOf(p, 0) == Tile(30, 30)
  }

  /** Grid: two 1px line layers, both on 100x100 tiles. */
  predicate GridGeometry(p: PatternStyle, color: string) {
    |p.tiles| > 0 && |p.layers| == 2 &&
    forall i :: 0 <= i < 2 ==>
      (p.layers[i].Line? && p.layers[i].widthPx == 1 && p.layers[i].color == color && TileOf(p, i) == Tile(100, 100))
  }

  /** Graph: full-colour lines on 100x100 tiles, and "40"-alpha lines on 20x20 tiles. */
  predicate GraphGeometry(p: PatternStyle, color: string) {
    |p.tiles| > 0 && |p.layers| == 4 &&
    forall i :: 0 <= i < 4 ==>
      (p.layers[i].Line? && p.layers[i].widthPx == 1 &&
       (TileOf(p, i) == Tile(20, 20) <==> p.layers[i].color == color + "40") &&
       (TileOf(p, i) == Tile(100, 100) <==> p.layers[i].color == color))
  }

  /** The tile geometry of each pattern, reading layers against the repeated size list. */
  lemma PatternGeometry(o: CustomizationOptions)
    requires o.patternType != NoPattern
    ensures o.patternType == Dots ==> DotsGeometry(PatternStyleOf(o).value, o.patternColor)
    ensures o.patternType == Grid ==> GridGeometry(PatternStyleOf(o).value, o.patternColor)
    ensures o.patternType == Graph ==> GraphGeometry(PatternStyleOf(o).value, o.patternColor)
  {
    var c := o.patternColor;
    assert c != c + "40" by {
      assert |c + "40"| == |c| + 2;
    }
  }

  /** A pattern at opacity 0 is present but invisible, unlike 'none', which draws no overlay. */
  lemma InvisibleIsNotAbsent(o: CustomizationOptions)
    requires o.patternType == Dots && o.patternOpacity == 0
    ensures PatternStyleOf(o).Some? && PatternStyleOf(o).value.opacity == 0.0
    ensures PatternStyleOf(o.(patternType := NoPattern)).None?
  {
  }

  /** What a wrapped element hands to the drag library: the id it reports, or nothing in production. */
  datatype DragBinding = DragsAs(element: string) | Inert

  /** The inline text style of the title and subtitle. */
  datatype TextStyle = TextStyle(fontFamily: string, fontSize: string, color: string, noWrap: bool)

  /** One drawn element inside the preview root, in drawing order. */
  datatype Node =
    | Overlay(style: PatternStyle)
    | Picture(key: string, sidePx: int, url: string, placed: Option<Position>, drag: DragBinding)
    | Heading(level: nat, text: string, textStyle: TextStyle, placed: Option<Position>, drag: DragBinding)
  {
    /** The drag binding of the node; the overlay has none. */
    function Binding(): DragBinding {
      match this
      case Overlay(_) => Inert
      case Picture(_, _, _, _, d) => d
      case Heading(_, _, _, _, d) => d
    }
  }

  /**
    `DraggableWrapper`: in production it drops `position`, `onDrag` and the
    other drag props and renders a plain div, so the element is neither placed
    nor draggable; otherwise it is placed at `at` and reports `element`.
   */
  function Placement(production: bool, at: Position): Option<Position> {
    if production then None else Some(at)
  }

  function Binding(production: bool, element: string): DragBinding {
    if production then Inert else DragsAs(element)
  }

  /** `${Math.round(parseFloat(size))}px`; a size with no leading numeral prints as "NaNpx". */
  function FontSizeCss(size: string): string {
    match RoundedNumeral(size)
    case Some(n) => NatToString(n) + "px"
    case None => "NaNpx"
  }

  /** A size from the font-size table prints unchanged with "px" appended. */
  lemma TableSizesPrintAsPixels(n: nat)
    ensures FontSizeCss(NatToString(n)) == NatToString(n) + "px"
  {
    RoundedPrinted(n);
  }

  /** The image cards of the preview, one per image, in list order, keyed by id. */
  function ImageNodes(images: seq<Image>, production: bool): (r: seq<Node>)
    ensures |r| == |images|
    ensures forall i :: 0 <= i < |images| ==>
      r[i] == Picture(images[i].id, images[i].size, images[i].url,
                      Placement(production, images[i].position), Binding(production, images[i].id))
  {
    seq(|images|, i requires 0 <= i < |images| =>
      Picture(images[i].id, images[i].size, images[i].url,
              Placement(production, images[i].position), Binding(production, images[i].id)))
  }

  function TitleNode(o: CustomizationOptions, production: bool): Node {
    Heading(1, o.title, TextStyle(o.titleFont, FontSizeCss(o.titleSize), o.titleColor, true),
            Placement(production, o.titlePosition), Binding(production, "title"))
  }

  function SubtitleNode(o: CustomizationOptions, production: bool): Node {
    Heading(2, o.subtitle, TextStyle(o.subtitleFont, FontSizeCss(o.subtitleSize), o.subtitleColor, true),
            Placement(production, o.subtitlePosition), Binding(production, "subtitle"))
  }

  /** How many overlay nodes come first: one, unless the pattern is 'none'. */
  function OverlayCount(o: CustomizationOptions): nat {
    if o.patternType == NoPattern then 0 else 1
  }

  /** The pattern overlay, if there is one. */
  function OverlayNodes(o: CustomizationOptions): (r: seq<Node>)
    ensures |r| == OverlayCount(o)
    ensures OverlayCount(o) == 1 ==> r[0] == Overlay(PatternStyleOf(o).value)
  {
    match PatternStyleOf(o) case Some(p) => [Overlay(p)] case None => []
  }

  /** The children of the preview root: the overlay, then the images in order, then title, then subtitle. */
  function Render(o: CustomizationOptions, production: bool): (r: seq<Node>)
    ensures |r| == OverlayCount(o) + |o.images| + 2
    ensures OverlayCount(o) == 1 ==> r[0] == Overlay(PatternStyleOf(o).value)
    ensures forall i :: 0 <= i < |o.images| ==> r[OverlayCount(o) + i].Picture? && r[OverlayCount(o) + i].key == o.images[i].id
    ensures r[|r| - 2].Heading? && r[|r| - 2].text == o.title
    ensures r[|r| - 1].Heading? && r[|r| - 1].text == o.subtitle
    ensures forall i :: 0 <= i < |r| ==> (r[i].Overlay? <==> i < OverlayCount(o))
  {
    OverlayNodes(o) + ImageNodes(o.images, production) + [TitleNode(o, production), SubtitleNode(o, production)]
  }

  /** Both text elements are single-line and sized `round(parseFloat(size))` pixels. */
  lemma TextNeverWraps(o: CustomizationOptions, production: bool)
    ensures var r := Render(o, production);
      r[|r| - 2].textStyle == TextStyle(o.titleFont, FontSizeCss(o.titleSize), o.titleColor, true) &&
      r[|r| - 1].textStyle == TextStyle(o.subtitleFont, FontSizeCss(o.subtitleSize), o.subtitleColor, true)
  {
  }

  /** Each image card is bound to its own id, the headings to 'title' and 'subtitle' (or all inert in production). */
  lemma RenderBindings(o: CustomizationOptions, production: bool)
    ensures var r := Render(o, production);
      (forall i :: 0 <= i < |o.images| ==> r[OverlayCount(o) + i].Binding() == Binding(production, o.images[i].id)) &&
      r[|r| - 2].Binding() == Binding(production, "title") &&
      r[|r| - 1].Binding() == Binding(production, "subtitle")
  {
    var overlay, pictures := OverlayNodes(o), ImageNodes(o.images, production);
    var r := Render(o, production);
    assert r == overlay + pictures + [TitleNode(o, production), SubtitleNode(o, production)];
    assert forall i :: 0 <= i < |pictures| ==> r[|overlay| + i] == pictures[i];
  }

  /** `handleDrag`: a bound node reports its own id and the library's offsets rounded to integers. */
  function OnDrag(n: Node, x: real, y: real): (r: Option<(string, Position)>)
    ensures r.Some? <==> n.Binding().DragsAs?
    ensures r.Some? ==> r.value.0 == n.Binding().element
    ensures r.Some? ==> x - 0.5 < r.value.1.x as real <= x + 0.5 && y - 0.5 < r.value.1.y as real <= y + 0.5
  {
    match n.Binding()
    case DragsAs(e) => Some((e, Position(Round(x), Round(y))))
    case Inert => None
  }

  /** In production no node of the preview can report a position change. */
  lemma ProductionNeverDrags(o: CustomizationOptions, i: nat, x: real, y: real)
    requires i < |Render(o, true)|
    ensures OnDrag(Render(o, true)[i], x, y).None?
  {
  }

  /** Outside production, dragging the `i`-th image reports that image's id and the rounded offsets. */
  lemma ImageDragReportsOwnId(o: CustomizationOptions, i: nat, x: real, y: real)
    requires i < |o.images|
    ensures OnDrag(Render(o, false)[OverlayCount(o) + i], x, y) == Some((o.images[i].id, Position(Round(x), Round(y))))
  {
    RenderBindings(o, false);
  }

  /** Outside production, dragging the title reports 'title' and the rounded offsets. */
  lemma TitleDragReportsTitle(o: CustomizationOptions, x: real, y: real)
    ensures var r := Render(o, false);
      OnDrag(r[|r| - 2], x, y) == Some(("title", Position(Round(x), Round(y))))
  {
    RenderBindings(o, false);
  }

  /** Outside production, dragging the subtitle reports 'subtitle' and the rounded offsets. */
  lemma SubtitleDragReportsSubtitle(o: CustomizationOptions, x: real, y: real)
    ensures var r := Render(o, false);
      OnDrag(r[|r| - 1], x, y) == Some(("subtitle", Position(Round(x), Round(y))))
  {
    RenderBindings(o, false);
  }

  /** Outside production, dragging an image reports that image's id, and the headings report 'title' and 'subtitle'. */
  lemma DevelopmentDragReportsOwnId(o: CustomizationOptions, x: real, y: real)
    ensures var r := Render(o, false);
      (forall i :: 0 <= i < |o.images| ==>
        OnDrag(r[OverlayCount(o) + i], x, y) == Some((o.images[i].id, Position(Round(x), Round(y))))) &&
      OnDrag(r[|r| - 2], x, y) == Some(("title", Position(Round(x), Round(y)))) &&
      OnDrag(r[|r| - 1], x, y) == Some(("subtitle", Position(Round(x), Round(y))))
  {
    forall i | 0 <= i < |o.images|
      ensures OnDrag(Render(o, false)[OverlayCount(o) + i], x, y) == Some((o.images[i].id, Position(Round(x), Round(y))))
    {
      ImageDragReportsOwnId(o, i, x, y);
    }
    TitleDragReportsTitle(o, x, y);
    SubtitleDragReportsSubtitle(o, x, y);
  }

  /** In production the stored positions, of the text and of any dragged image, do not reach the rendered tree at all. */
  lemma ProductionIgnoresPositions(o: CustomizationOptions, title: Position, subtitle: Position, id: string, at: Position)
    ensures Render(o, true) ==
            Render(o.(titlePosition := title, subtitlePosition := subtitle, images := Builder.MoveImages(o.images, id, at)), true)
  {
    var o' := o.(titlePosition := title, subtitlePosition := subtitle, images := Builder.MoveImages(o.images, id, at));
    assert OverlayNodes(o') == OverlayNodes(o);
    assert ImageNodes(o'.images, true) == ImageNodes(o.images, true);
    assert TitleNode(o', true) == TitleNode(o, true);
    assert SubtitleNode(o', true) == SubtitleNode(o, true);
  }
}
