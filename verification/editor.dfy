/**
  The builder page as a whole: the events its panels and the window deliver,
  the session after a history of them, and what holds of every session the
  page can reach.
 */
module Editor {
  import opened Wrappers
  import Decimal
  import opened Options
  import opened Presets
  import opened Builder
  import Preview
  import Background
  import ImageControls

  /** The eight text inputs of the layout panel. */
  datatype TextField =
    | TitleField | TitleFontField | TitleSizeField | TitleColorField
    | SubtitleField | SubtitleFontField | SubtitleSizeField | SubtitleColorField

  /** Each text input writes its own text field of the options, and only the text fields. */
  function TextUpdate(f: TextField, v: string): (u: Update)
    ensures u.Value() == Text(v)
    ensures u.Key() in {Title, TitleFont, TitleSize, TitleColor, Subtitle, SubtitleFont, SubtitleSize, SubtitleColor}
    ensures f == TitleField ==> u.Key() == Title
    ensures f == TitleFontField ==> u.Key() == TitleFont
    ensures f == TitleSizeField ==> u.Key() == TitleSize
    ensures f == TitleColorField ==> u.Key() == TitleColor
    ensures f == SubtitleField ==> u.Key() == Subtitle
    ensures f == SubtitleFontField ==> u.Key() == SubtitleFont
    ensures f == SubtitleSizeField ==> u.Key() == SubtitleSize
    ensures f == SubtitleColorField ==> u.Key() == SubtitleColor
  {
    match f
    case TitleField => SetTitle(v)
    case TitleFontField => SetTitleFont(v)
    case TitleSizeField => SetTitleSize(v)
    case TitleColorField => SetTitleColor(v)
    case SubtitleField => SetSubtitle(v)
    case SubtitleFontField => SetSubtitleFont(v)
    case SubtitleSizeField => SetSubtitleSize(v)
    case SubtitleColorField => SetSubtitleColor(v)
  }

  /** A file read that has started and not finished: the image list its `onload` captured, and the file's name. */
  datatype PendingRead = PendingRead(captured: seq<Image>, fileName: string)

  /** The builder's session together with the file reads still in progress. */
  datatype State = State(session: Session, loading: seq<PendingRead>)

  /**
    What reaches the builder. `Dragged` names a node of the rendered preview
    by its index. `FileLoaded` is the reader finishing the `read`-th pending
    read, with the builder's clock reading and the data URL it produced.
   */
  datatype Event =
    | WindowResized(width: int)
    | TextEdited(field: TextField, value: string)
    | BackgroundEdited(change: Background.Action)
    | Dragged(node: nat, x: real, y: real)
    | ImagesEdited(request: ImageControls.Action)
    | FileLoaded(read: nat, readAt: nat, dataUrl: string)

  /** The builder handler each image-panel callback reaches; an upload only starts a read. */
  function Serve(st: State, req: ImageControls.Request): (r: State)
    ensures req.Upload? ==>
      r.session == st.session && r.loading == st.loading + [PendingRead(st.session.options.images, req.file.name)]
    ensures !req.Upload? ==> r.loading == st.loading && r.session.hasUserMadeChanges
    ensures req.Remove? ==> r.session.options.images == WithoutId(st.session.options.images, req.id)
    ensures req.Resize? ==> r.session.options.images == ResizeImages(st.session.options.images, req.id, req.size)
    ensures forall k :: k != Images ==> Get(r.session.options, k) == Get(st.session.options, k)
  {
    match req
    case Upload(file) => st.(loading := st.loading + [PendingRead(st.session.options.images, file.name)])
    case Remove(id) => st.(session := ImageRemove(st.session, id))
    case Resize(id, size) => st.(session := ImageResize(st.session, id, size))
  }

  predicate AllUploads(reqs: seq<ImageControls.Request>) {
    forall j :: 0 <= j < |reqs| ==> reqs[j].Upload?
  }

  /**
    The callbacks of one image-panel action, in order. Uploads leave the
    session alone and only add reads; any other callback marks it edited.
   */
  function ServeAll(st: State, reqs: seq<ImageControls.Request>): (r: State)
    ensures |reqs| == 0 ==> r == st
    ensures r.session.hasUserMadeChanges == (st.session.hasUserMadeChanges || !AllUploads(reqs))
    ensures AllUploads(reqs) ==> r.session == st.session
    ensures |st.loading| <= |r.loading| && r.loading[..|st.loading|] == st.loading
    decreases |reqs|
  {
    if |reqs| == 0 then st
    else
      assert AllUploads(reqs) <==> reqs[0].Upload? && AllUploads(reqs[1..]) by {
        if reqs[0].Upload? && AllUploads(reqs[1..]) {
          forall j | 0 < j < |reqs|
            ensures reqs[j].Upload?
          {
            assert reqs[j] == reqs[1..][j - 1];
          }
        }
      }
      ServeAll(Serve(st, reqs[0]), reqs[1..])
  }

  /**
    A drag on a node of the rendered preview; a node that reports nothing
    changes nothing, and in production no node reports. A drag can only move
    the title, the subtitle or images.
   */
  function Drag(s: Session, node: nat, x: real, y: real, production: bool): (r: Session)
    ensures production ==> r == s
    ensures node >= |Preview.Render(s.options, production)| ==> r == s
    ensures r == s || r.hasUserMadeChanges
    ensures forall k :: k != Images && k != TitlePosition && k != SubtitlePosition ==> Get(r.options, k) == Get(s.options, k)
  {
    var nodes := Preview.Render(s.options, production);
    if node < |nodes| then
      match Preview.OnDrag(nodes[node], x, y)
      case Some(report) => PositionChange(s, report.0, report.1)
      case None => s
    else s
  }

  /** The reader's `onload` for the `k`-th read in progress; that read is then over and the others stay in order. */
  function Load(st: State, k: nat, readAt: nat, dataUrl: string): (r: State)
    requires k < |st.loading|
    ensures r.session == UploadLoaded(st.session, st.loading[k].captured, readAt, st.loading[k].fileName, dataUrl)
    ensures |r.loading| == |st.loading| - 1
    ensures forall j :: 0 <= j < |r.loading| ==> r.loading[j] == st.loading[if j < k then j else j + 1]
  {
    var read := st.loading[k];
    State(UploadLoaded(st.session, read.captured, readAt, read.fileName, dataUrl), st.loading[..k] + st.loading[k + 1..])
  }

  /**
    The state after one event. Only the image panel and the reader touch the
    reads in progress; a load of a read that is not in progress changes
    nothing; a text edit writes its own field and marks the session edited.
   */
  function Step(st: State, e: Event, production: bool): (r: State)
    ensures !e.ImagesEdited? && !e.FileLoaded? ==> r.loading == st.loading
    ensures e.FileLoaded? && e.read >= |st.loading| ==> r == st
    ensures e.FileLoaded? && e.read < |st.loading| ==> |r.loading| == |st.loading| - 1 && r.session.hasUserMadeChanges
    ensures e.WindowResized? ==> r.session.hasUserMadeChanges == st.session.hasUserMadeChanges
    ensures e.TextEdited? ==> r.session.hasUserMadeChanges
    ensures e.TextEdited? ==> Get(r.session.options, TextUpdate(e.field, e.value).Key()) == Text(e.value)
    ensures e.TextEdited? ==>
      forall k :: k != TextUpdate(e.field, e.value).Key() ==> Get(r.session.options, k) == Get(st.session.options, k)
  {
    match e
    case WindowResized(w) => st.(session := Resize(st.session, w))
    case TextEdited(f, v) => st.(session := UpdateOption(st.session, TextUpdate(f, v)))
    case BackgroundEdited(a) => st.(session := UpdateAll(st.session, Background.Emits(st.session.options, a)))
    case Dragged(i, x, y) => st.(session := Drag(st.session, i, x, y, production))
    case ImagesEdited(a) => ServeAll(st, ImageControls.Requests(st.session.options.images, a))
    case FileLoaded(k, t, url) => if k < |st.loading| then Load(st, k, t, url) else st
  }

  /** The state after mounting at `width` and then a history of events. */
  function Run(width: int, es: seq<Event>, production: bool): State
    decreases |es|
  {
    if |es| == 0 then State(Mount(width), []) else Step(Run(width, es[..|es| - 1], production), es[|es| - 1], production)
  }

  /** The width of the latest resize in the history, or the mount width if there was none. */
  function LatestWidth(width: int, es: seq<Event>): int
    decreases |es|
  {
    if |es| == 0 then width
    else match es[|es| - 1]
      case WindowResized(w) => w
      case _ => LatestWidth(width, es[..|es| - 1])
  }

  // ---------------------------------------------------------------------------
  // The edited flag

  /** No event clears the edited flag. */
  lemma StepKeepsFlag(st: State, e: Event, production: bool)
    requires st.session.hasUserMadeChanges
    ensures Step(st, e, production).session.hasUserMadeChanges
  {
  }

  /** Once the flag is set at some point of a history, it stays set. */
  lemma {:induction false} FlagIsMonotone(width: int, es: seq<Event>, k: nat, production: bool)
    requires k <= |es| && Run(width, es[..k], production).session.hasUserMadeChanges
    ensures Run(width, es, production).session.hasUserMadeChanges
    decreases |es| - k
  {
    if k < |es| {
      assert es[..k + 1][..k] == es[..k];
      StepKeepsFlag(Run(width, es[..k], production), es[k], production);
      FlagIsMonotone(width, es, k + 1, production);
    } else {
      assert es[..k] == es;
    }
  }

  /** An event that leaves the flag clear is a resize or leaves the session as it is. */
  lemma UneditedStep(st: State, e: Event, production: bool)
    requires !Step(st, e, production).session.hasUserMadeChanges
    ensures !st.session.hasUserMadeChanges
    ensures e.WindowResized? || Step(st, e, production).session == st.session
  {
  }

  /**
    Until the user edits something, the options are always the preset for
    the latest window width.
   */
  lemma {:induction false} UneditedFollowsLatestWidth(width: int, es: seq<Event>, production: bool)
    requires !Run(width, es, production).session.hasUserMadeChanges
    ensures Run(width, es, production).session.options == PresetOptions(PresetFor(LatestWidth(width, es)))
    decreases |es|
  {
    if |es| > 0 {
      var before := es[..|es| - 1];
      UneditedStep(Run(width, before, production), es[|es| - 1], production);
      if !es[|es| - 1].WindowResized? {
        UneditedFollowsLatestWidth(width, before, production);
      }
    }
  }

  /** After any edit, a further resize leaves the whole state as it is. */
  lemma EditedIgnoresResize(width: int, es: seq<Event>, w: int, production: bool)
    requires Run(width, es, production).session.hasUserMadeChanges
    ensures Run(width, es + [WindowResized(w)], production) == Run(width, es, production)
  {
    assert (es + [WindowResized(w)])[..|es|] == es;
  }

  // ---------------------------------------------------------------------------
  // Dragging and uploads through the whole page

  /** In production no drag event changes the state. */
  lemma ProductionDragIsInert(st: State, i: nat, x: real, y: real)
    ensures Step(st, Dragged(i, x, y), true) == st
  {
    if i < |Preview.Render(st.session.options, true)| {
      Preview.ProductionNeverDrags(st.session.options, i, x, y);
    }
  }

  /** Outside production, dragging the title moves the title to the rounded offsets and changes no other option. */
  lemma DevelopmentTitleDrag(st: State, x: real, y: real)
    ensures var n := |Preview.Render(st.session.options, false)|;
      var r := Step(st, Dragged(n - 2, x, y), false).session;
      r.hasUserMadeChanges &&
      Get(r.options, TitlePosition) == At(Position(Decimal.Round(x), Decimal.Round(y))) &&
      forall k :: k != TitlePosition ==> Get(r.options, k) == Get(st.session.options, k)
  {
    var u := SetTitlePosition(Position(Decimal.Round(x), Decimal.Round(y)));
    assert u.Key() == TitlePosition && u.Value() == At(u.at);
    TitleDragIsTitleChange(st.session, x, y);
  }

  /** Outside production, a drag on the title node stores the rounded offsets as the title position. */
  lemma TitleDragIsTitleChange(s: Session, x: real, y: real)
    ensures Drag(s, |Preview.Render(s.options, false)| - 2, x, y, false) ==
      UpdateOption(s, SetTitlePosition(Position(Decimal.Round(x), Decimal.Round(y))))
  {
    Preview.TitleDragReportsTitle(s.options, x, y);
  }

  /** A title drag by whole pixels stores exactly those offsets as the title position. */
  lemma IntegralTitleDragIsExact(st: State, x: int, y: int)
    ensures var n := |Preview.Render(st.session.options, false)|;
      Step(st, Dragged(n - 2, x as real, y as real), false).session.options.titlePosition == Position(x, y)
  {
    DevelopmentTitleDrag(st, x as real, y as real);
    Decimal.RoundOfInteger(x);
    Decimal.RoundOfInteger(y);
    var n := |Preview.Render(st.session.options, false)|;
    assert Get(Step(st, Dragged(n - 2, x as real, y as real), false).session.options, TitlePosition) == At(Position(x, y));
  }

  /** Events other than a load never drop or reorder the reads in progress; they can only add some. */
  lemma StepKeepsReads(st: State, e: Event, production: bool)
    requires !e.FileLoaded?
    ensures var r := Step(st, e, production).loading;
      |st.loading| <= |r| && r[..|st.loading|] == st.loading
  {
  }

  /** The image a file chosen at panel time `t1` and read at builder time `t2` becomes. */
  function UploadedFile(file: ImageControls.File, t1: nat, t2: nat, url: string): (img: Image)
    ensures img.id == Decimal.NatToString(t2) + "-" + Decimal.NatToString(t1) + "-" + file.name
    ensures img.url == url && img.size == 100 && img.position == Position(70, 50)
  {
    UploadedImage(t2, ImageControls.Renamed(file, t1).name, url)
  }

  /**
    A file chosen at panel time `t1` and read by the builder at `t2` is stored
    under an id carrying both timestamps and lands last in the list; its read
    is then over.
   */
  lemma UploadCarriesBothTimestamps(st: State, files: seq<ImageControls.File>, t1: nat, t2: nat, url: string, production: bool)
    requires |files| > 0
    ensures var a := Step(st, ImagesEdited(ImageControls.ChooseFiles(files, t1)), production);
      var b := Step(a, FileLoaded(|st.loading|, t2, url), production);
      b.loading == st.loading &&
      b.session.options.images == st.session.options.images + [UploadedFile(files[0], t1, t2, url)]
  {
    var req := ImageControls.Upload(ImageControls.Renamed(files[0], t1));
    assert ImageControls.Requests(st.session.options.images, ImageControls.ChooseFiles(files, t1)) == [req];
    var a := Step(st, ImagesEdited(ImageControls.ChooseFiles(files, t1)), production);
    assert a.loading == st.loading + [PendingRead(st.session.options.images, req.file.name)];
    var b := Step(a, FileLoaded(|st.loading|, t2, url), production);
    assert b.loading == st.loading;
  }

  /**
    Whatever single event other than a load happens while a file is read, the
    image list afterwards is the list from when the upload started plus the new
    image: a move, resize or removal made meanwhile is lost. The other options
    keep what that event did to them.
   */
  lemma EditDuringReadIsLost(st: State, files: seq<ImageControls.File>, t1: nat, e: Event, t2: nat, url: string, production: bool)
    requires |files| > 0 && !e.FileLoaded?
    ensures var a := Step(st, ImagesEdited(ImageControls.ChooseFiles(files, t1)), production);
      var m := Step(a, e, production);
      var b := Step(m, FileLoaded(|st.loading|, t2, url), production);
      b.session.options.images == st.session.options.images + [UploadedFile(files[0], t1, t2, url)] &&
      forall k :: k != Images ==> Get(b.session.options, k) == Get(m.session.options, k)
  {
    var req := ImageControls.Upload(ImageControls.Renamed(files[0], t1));
    assert ImageControls.Requests(st.session.options.images, ImageControls.ChooseFiles(files, t1)) == [req];
    var a := Step(st, ImagesEdited(ImageControls.ChooseFiles(files, t1)), production);
    assert a.loading[|st.loading|] == PendingRead(st.session.options.images, req.file.name);
    var m := Step(a, e, production);
    StepKeepsReads(a, e, production);
    assert m.loading[|st.loading|] == a.loading[..|a.loading|][|st.loading|];
  }

  /**
    Two uploads whose reads overlap: both reads capture the same list, so
    whichever finishes last writes that list plus only its own image, and the
    image of the read that finished first is lost. Either way both reads are
    then over.
   */
  lemma ConcurrentUploadsKeepLastOnly(st: State, fa: ImageControls.File, ta: nat, fb: ImageControls.File, tb: nat,
                                      t2: nat, urlA: string, t3: nat, urlB: string, production: bool)
    ensures var n := |st.loading|;
      var a := Step(st, ImagesEdited(ImageControls.ChooseFiles([fa], ta)), production);
      var ab := Step(a, ImagesEdited(ImageControls.ChooseFiles([fb], tb)), production);
      var aFirst := Step(Step(ab, FileLoaded(n, t2, urlA), production), FileLoaded(n, t3, urlB), production);
      var bFirst := Step(Step(ab, FileLoaded(n + 1, t3, urlB), production), FileLoaded(n, t2, urlA), production);
      aFirst.loading == st.loading && bFirst.loading == st.loading &&
      aFirst.session.options.images == st.session.options.images + [UploadedFile(fb, tb, t3, urlB)] &&
      bFirst.session.options.images == st.session.options.images + [UploadedFile(fa, ta, t2, urlA)]
  {
    var n := |st.loading|;
    var images := st.session.options.images;
    var readA := PendingRead(images, ImageControls.Renamed(fa, ta).name);
    var readB := PendingRead(images, ImageControls.Renamed(fb, tb).name);
    ChoosingOneFileStartsARead(st, fa, ta, production);
    var a := Step(st, ImagesEdited(ImageControls.ChooseFiles([fa], ta)), production);
    ChoosingOneFileStartsARead(a, fb, tb, production);
    var ab := Step(a, ImagesEdited(ImageControls.ChooseFiles([fb], tb)), production);
    assert ab.loading == st.loading + [readA, readB];
    EarlierReadFinishesFirst(ab, st.loading, readA, readB, t2, urlA, t3, urlB, production);
    LaterReadFinishesFirst(ab, st.loading, readA, readB, t3, urlB, t2, urlA, production);
  }

  /** With two reads last in line, finishing the earlier and then the other leaves the later one's capture and image. */
  lemma EarlierReadFinishesFirst(s0: State, base: seq<PendingRead>, r0: PendingRead, r1: PendingRead,
                                 t: nat, url: string, t': nat, url': string, production: bool)
    requires s0.loading == base + [r0, r1]
    ensures var s2 := Step(Step(s0, FileLoaded(|base|, t, url), production), FileLoaded(|base|, t', url'), production);
      s2.loading == base && s2.session.options.images == r1.captured + [UploadedImage(t', r1.fileName, url')]
  {
    var s1 := Step(s0, FileLoaded(|base|, t, url), production);
    assert s1.loading == base + [r1];
  }

  /** With two reads last in line, finishing the later and then the other leaves the earlier one's capture and image. */
  lemma LaterReadFinishesFirst(s0: State, base: seq<PendingRead>, r0: PendingRead, r1: PendingRead,
                               t: nat, url: string, t': nat, url': string, production: bool)
    requires s0.loading == base + [r0, r1]
    ensures var s2 := Step(Step(s0, FileLoaded(|base| + 1, t, url), production), FileLoaded(|base|, t', url'), production);
      s2.loading == base && s2.session.options.images == r0.captured + [UploadedImage(t', r0.fileName, url')]
  {
    var s1 := Step(s0, FileLoaded(|base| + 1, t, url), production);
    assert s1.loading == base + [r0];
  }

  /** Choosing one file only starts a read, which captures the current image list. */
  lemma ChoosingOneFileStartsARead(st: State, f: ImageControls.File, t: nat, production: bool)
    ensures Step(st, ImagesEdited(ImageControls.ChooseFiles([f], t)), production) ==
      st.(loading := st.loading + [PendingRead(st.session.options.images, ImageControls.Renamed(f, t).name)])
  {
    assert ImageControls.Requests(st.session.options.images, ImageControls.ChooseFiles([f], t)) ==
      [ImageControls.Upload(ImageControls.Renamed(f, t))];
  }

  // ---------------------------------------------------------------------------
  // What every reachable state satisfies

  /** Every image size is one the presets, an upload or the size slider produce. */
  predicate SizesAllowed(images: seq<Image>) {
    forall x :: x in images ==> 20 <= x.size <= 600
  }

  /**
    The invariant of every reachable options record: the opacity is a
    percentage, the background is a colour or a gradient with two or three
    colours and an offered direction, no background image is set, and every
    image size is allowed.
   */
  predicate Sane(o: CustomizationOptions) {
    0 <= o.patternOpacity <= 100 &&
    (o.backgroundType == ColorBackground || o.backgroundType == GradientBackground) &&
    o.backgroundImage == None &&
    2 <= |o.gradientColors| <= 3 &&
    o.gradientDirection in Background.Directions &&
    SizesAllowed(o.images)
  }

  /** The options are sane, and so is every image list a read in progress will write back. */
  predicate StateSane(st: State) {
    Sane(st.session.options) && forall j :: 0 <= j < |st.loading| ==> SizesAllowed(st.loading[j].captured)
  }

  /** An update that keeps `Sane`: it writes a value the invariant allows for its key. */
  predicate KeepsSane(u: Update) {
    match u
    case SetBackgroundType(k) => k == ColorBackground || k == GradientBackground
    case SetBackgroundImage(v) => v == None
    case SetGradientColors(c) => 2 <= |c| <= 3
    case SetGradientDirection(d) => d in Background.Directions
    case SetPatternOpacity(n) => 0 <= n <= 100
    case SetImages(l) => SizesAllowed(l)
    case _ => true
  }

  /** Every preset is sane. */
  lemma PresetsAreSane(p: Preset)
    ensures Sane(PresetOptions(p))
  {
    assert Background.Directions[3] == "to bottom right";
  }

  lemma ApplyKeepsSane(o: CustomizationOptions, u: Update)
    requires Sane(o) && KeepsSane(u)
    ensures Sane(Apply(o, u))
  {
  }

  lemma {:induction false} ApplyAllKeepsSane(o: CustomizationOptions, us: seq<Update>)
    requires Sane(o) && forall j :: 0 <= j < |us| ==> KeepsSane(us[j])
    ensures Sane(ApplyAll(o, us))
    decreases |us|
  {
    if |us| > 0 {
      ApplyKeepsSane(o, us[0]);
      ApplyAllKeepsSane(Apply(o, us[0]), us[1..]);
    }
  }

  /** Every gradient preset lists two or three colours and an offered direction. */
  lemma GradientOptionsAreSane(i: nat)
    requires i < |Background.GradientOptions|
    ensures 2 <= |Background.GradientOptions[i].colors| <= 3
    ensures Background.GradientOptions[i].direction in Background.Directions
  {
    var d := Background.Directions;
    assert d[0] == "to top" && d[2] == "to right" && d[3] == "to bottom right" && d[4] == "to bottom";
  }

  /** Everything the background panel emits keeps the invariant. */
  lemma BackgroundKeepsSane(o: CustomizationOptions, a: Background.Action)
    ensures forall j :: 0 <= j < |Background.Emits(o, a)| ==> KeepsSane(Background.Emits(o, a)[j])
  {
    match a
    case ClickGradient(i) =>
      if i < |Background.GradientOptions| {
        GradientOptionsAreSane(i);
      }
    case ClickDirection(i) =>
      if i < |Background.Directions| {
        assert Background.Directions[i] in Background.Directions;
      }
    case _ =>
  }

  /** A move keeps every image size allowed. */
  lemma MoveKeepsSizes(images: seq<Image>, id: string, at: Position)
    requires SizesAllowed(images)
    ensures SizesAllowed(MoveImages(images, id, at))
  {
    var r := MoveImages(images, id, at);
    forall x | x in r
      ensures 20 <= x.size <= 600
    {
      var i :| 0 <= i < |r| && r[i] == x;
      assert images[i] in images;
    }
  }

  /** So does a resize to an allowed size. */
  lemma ResizeKeepsSizes(images: seq<Image>, id: string, size: int)
    requires SizesAllowed(images)
    requires 20 <= size <= 600
    ensures SizesAllowed(ResizeImages(images, id, size))
  {
    var r := ResizeImages(images, id, size);
    forall x | x in r
      ensures 20 <= x.size <= 600
    {
      var i :| 0 <= i < |r| && r[i] == x;
      assert images[i] in images;
    }
  }

  /** Changes only to the images, with the new list allowed, keep the invariant. */
  lemma ImagesOnlyKeepsSane(o: CustomizationOptions, r: CustomizationOptions)
    requires Sane(o)
    requires forall k :: k != Images ==> Get(r, k) == Get(o, k)
    requires SizesAllowed(r.images)
    ensures Sane(r)
  {
    assert Get(r, PatternOpacity) == Get(o, PatternOpacity);
    assert Get(r, BackgroundType) == Get(o, BackgroundType);
    assert Get(r, BackgroundImage) == Get(o, BackgroundImage);
    assert Get(r, GradientColors) == Get(o, GradientColors);
    assert Get(r, GradientDirection) == Get(o, GradientDirection);
  }

  /** One image-panel callback with a slider value in [20, 600] keeps the invariant. */
  lemma ServeKeepsSane(st: State, req: ImageControls.Request)
    requires StateSane(st)
    requires req.Resize? ==> 20 <= req.size <= 600
    ensures StateSane(Serve(st, req))
  {
    var r := Serve(st, req);
    match req
    case Upload(file) =>
      assert forall j :: 0 <= j < |r.loading| ==> r.loading[j] == if j < |st.loading| then st.loading[j] else PendingRead(st.session.options.images, file.name);
    case Remove(id) =>
      ImagesOnlyKeepsSane(st.session.options, r.session.options);
    case Resize(id, size) =>
      ResizeKeepsSizes(st.session.options.images, id, size);
      ImagesOnlyKeepsSane(st.session.options, r.session.options);
  }

  /** Every image-panel action keeps the invariant. */
  lemma ServeAllKeepsSane(st: State, a: ImageControls.Action)
    requires StateSane(st)
    ensures StateSane(ServeAll(st, ImageControls.Requests(st.session.options.images, a)))
  {
    var reqs := ImageControls.Requests(st.session.options.images, a);
    if |reqs| > 0 {
      assert |reqs| == 1;
      if reqs[0].Resize? {
        ImageControls.ResizeRequestsAreInRange(st.session.options.images, a, 0);
      }
      ServeKeepsSane(st, reqs[0]);
      var r := Serve(st, reqs[0]);
      assert ServeAll(st, reqs) == ServeAll(r, reqs[1..]) == r;
    }
  }

  /** A finished read keeps the invariant: it writes a captured list, which was allowed, plus an image of size 100. */
  lemma LoadKeepsSane(st: State, k: nat, readAt: nat, dataUrl: string)
    requires StateSane(st) && k < |st.loading|
    ensures StateSane(Load(st, k, readAt, dataUrl))
  {
    var r := Load(st, k, readAt, dataUrl);
    var captured := st.loading[k].captured;
    forall x | x in r.session.options.images
      ensures 20 <= x.size <= 600
    {
      var i :| 0 <= i < |r.session.options.images| && r.session.options.images[i] == x;
      if i < |captured| {
        assert r.session.options.images[..|captured|][i] == x;
        assert captured[i] in captured;
      }
    }
    ImagesOnlyKeepsSane(st.session.options, r.session.options);
  }

  /** A position change keeps the invariant: it moves the title, the subtitle or images, never resizing anything. */
  lemma PositionChangeKeepsSane(s: Session, element: string, at: Position)
    requires Sane(s.options)
    ensures Sane(PositionChange(s, element, at).options)
  {
    if element == "title" {
      ApplyKeepsSane(s.options, SetTitlePosition(at));
    } else if element == "subtitle" {
      ApplyKeepsSane(s.options, SetSubtitlePosition(at));
    } else {
      MoveKeepsSizes(s.options.images, element, at);
      ImagesOnlyKeepsSane(s.options, PositionChange(s, element, at).options);
    }
  }

  /** So does a drag, which is a position change or nothing. */
  lemma DragKeepsSane(s: Session, i: nat, x: real, y: real, production: bool)
    requires Sane(s.options)
    ensures Sane(Drag(s, i, x, y, production).options)
  {
    var nodes := Preview.Render(s.options, production);
    if i < |nodes| && Preview.OnDrag(nodes[i], x, y).Some? {
      var report := Preview.OnDrag(nodes[i], x, y).value;
      PositionChangeKeepsSane(s, report.0, report.1);
    }
  }

  /** A sane new session with the reads left alone keeps the whole state sane. */
  lemma NewSessionKeepsSane(st: State, s: Session)
    requires StateSane(st) && Sane(s.options)
    ensures StateSane(st.(session := s))
  {
  }

  /** An event that only edits the session leaves the reads alone and keeps the options sane. */
  lemma SessionEditKeepsSane(st: State, e: Event, production: bool)
    requires StateSane(st)
    requires !e.ImagesEdited? && !e.FileLoaded?
    ensures Step(st, e, production).loading == st.loading
    ensures Sane(Step(st, e, production).session.options)
  {
    var o := st.session.options;
    match e
    case WindowResized(w) =>
      PresetsAreSane(PresetFor(w));
    case TextEdited(f, v) =>
      ApplyKeepsSane(o, TextUpdate(f, v));
    case BackgroundEdited(a) =>
      BackgroundKeepsSane(o, a);
      ApplyAllKeepsSane(o, Background.Emits(o, a));
    case Dragged(i, x, y) =>
      DragKeepsSane(st.session, i, x, y, production);
  }

  /** Every event keeps the invariant. */
  lemma StepKeepsSane(st: State, e: Event, production: bool)
    requires StateSane(st)
    ensures StateSane(Step(st, e, production))
  {
    if e.ImagesEdited? {
      ServeAllKeepsSane(st, e.request);
    } else if e.FileLoaded? {
      if e.read < |st.loading| {
        LoadKeepsSane(st, e.read, e.readAt, e.dataUrl);
      }
    } else {
      SessionEditKeepsSane(st, e, production);
      NewSessionKeepsSane(st, Step(st, e, production).session);
    }
  }

  /** Every state the page can reach satisfies the invariant, reads in progress included. */
  lemma {:induction false} ReachableIsSane(width: int, es: seq<Event>, production: bool)
    ensures StateSane(Run(width, es, production))
    decreases |es|
  {
    if |es| == 0 {
      PresetsAreSane(PresetFor(width));
    } else {
      ReachableIsSane(width, es[..|es| - 1], production);
      StepKeepsSane(Run(width, es[..|es| - 1], production), es[|es| - 1], production);
    }
  }

  /**
    So the image branch of the background style is dead code: a reachable
    preview is painted with a solid colour or a gradient, never an image.
   */
  lemma ReachableBackgroundIsColorOrGradient(width: int, es: seq<Event>, production: bool)
    ensures var o := Run(width, es, production).session.options;
      var st := Preview.BackgroundStyleOf(o);
      st.backgroundSize.None? && st.backgroundPosition.None? &&
      (st.backgroundColor == Some(o.backgroundColor) ||
       st.backgroundImage == Some(Preview.LinearGradient(o.gradientDirection, o.gradientColors)))
  {
    ReachableIsSane(width, es, production);
  }

  /** And a reachable pattern overlay always has an opacity in [0, 1]. */
  lemma ReachableOverlayOpacity(width: int, es: seq<Event>, production: bool)
    ensures var p := Preview.PatternStyleOf(Run(width, es, production).session.options);
      p.Some? ==> 0.0 <= p.value.opacity <= 1.0
  {
    ReachableIsSane(width, es, production);
  }
}
