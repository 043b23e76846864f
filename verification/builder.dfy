/**
  The cover-photo builder's session: the options record, the flag that records
  whether the user has changed anything, and the handlers the builder passes
  to its panels (resize, update, drag, upload, remove, resize image, download).
 */
module Builder {
  import opened Wrappers
  import opened Decimal
  import opened Options
  import opened Presets

  /** The builder's state: `options` and `hasUserMadeChanges`. */
  datatype Session = Session(options: CustomizationOptions, hasUserMadeChanges: bool)

  /** The state before the first effect runs: the desktop preset, nothing edited. */
  const Initial: Session := Session(DesktopPreset, false)

  /**
    The resize handler. While the user has not edited anything, the preset for
    the new width replaces the options wholesale; afterwards it does nothing.
   */
  function Resize(s: Session, width: int): (r: Session)
    ensures r.hasUserMadeChanges == s.hasUserMadeChanges
    ensures s.hasUserMadeChanges ==> r == s
    ensures !s.hasUserMadeChanges ==> r.options == PresetOptions(PresetFor(width))
  {
    if s.hasUserMadeChanges then s else Session(PresetOptions(PresetFor(width)), false)
  }

  /** The mount effect: the flag is clear, so the handler runs once for the current width. */
  function Mount(width: int): (s: Session)
    ensures !s.hasUserMadeChanges
    ensures s.options == PresetOptions(PresetFor(width))
  {
    Resize(Initial, width)
  }

  /** `updateOption`: exactly the named field is replaced, and the session is marked as edited. */
  function UpdateOption(s: Session, u: Update): (r: Session)
    ensures r.hasUserMadeChanges
    ensures Get(r.options, u.Key()) == u.Value()
    ensures forall k :: k != u.Key() ==> Get(r.options, k) == Get(s.options, k)
  {
    Session(Apply(s.options, u), true)
  }

  /** Several `updateOption` calls in order; any call at all marks the session as edited. */
  function UpdateAll(s: Session, us: seq<Update>): (r: Session)
    ensures r.options == ApplyAll(s.options, us)
    ensures r.hasUserMadeChanges == (s.hasUserMadeChanges || |us| > 0)
    decreases |us|
  {
    if |us| == 0 then s else UpdateAll(UpdateOption(s, us[0]), us[1..])
  }

  /** Once edited, a resize leaves the whole session as it is. */
  lemma EditedSessionIgnoresResize(s: Session, u: Update, width: int)
    ensures Resize(UpdateOption(s, u), width) == UpdateOption(s, u)
  {
  }

  /** The images with id `id` moved to `at`; every other image, and every other attribute, is kept. */
  function MoveImages(images: seq<Image>, id: string, at: Position): (r: seq<Image>)
    ensures |r| == |images|
    ensures forall i :: 0 <= i < |images| ==>
      r[i].id == images[i].id && r[i].url == images[i].url && r[i].size == images[i].size
    ensures forall i :: 0 <= i < |images| ==>
      r[i].position == if images[i].id == id then at else images[i].position
  {
    seq(|images|, i requires 0 <= i < |images| =>
      if images[i].id == id then images[i].(position := at) else images[i])
  }

  /** The images with id `id` resized to `size`; every other image, and every other attribute, is kept. */
  function ResizeImages(images: seq<Image>, id: string, size: int): (r: seq<Image>)
    ensures |r| == |images|
    ensures forall i :: 0 <= i < |images| ==>
      r[i].id == images[i].id && r[i].url == images[i].url && r[i].position == images[i].position
    ensures forall i :: 0 <= i < |images| ==>
      r[i].size == if images[i].id == id then size else images[i].size
  {
    seq(|images|, i requires 0 <= i < |images| =>
      if images[i].id == id then images[i].(size := size) else images[i])
  }

  /** No image carries `id`. */
  predicate AbsentId(images: seq<Image>, id: string) {
    forall i :: 0 <= i < |images| ==> images[i].id != id
  }

  /** Exactly the image at index `i` carries `id`. */
  predicate OnlyAt(images: seq<Image>, id: string, i: nat) {
    i < |images| && images[i].id == id && forall j :: 0 <= j < |images| && j != i ==> images[j].id != id
  }

  /** Moving or resizing by an id no image carries leaves the list equal. */
  lemma UnknownIdChangesNoImage(images: seq<Image>, id: string, at: Position, size: int)
    requires AbsentId(images, id)
    ensures MoveImages(images, id, at) == images
    ensures ResizeImages(images, id, size) == images
  {
    var m := MoveImages(images, id, at);
    var z := ResizeImages(images, id, size);
    assert forall i :: 0 <= i < |images| ==> m[i] == images[i];
    assert forall i :: 0 <= i < |images| ==> z[i] == images[i];
  }

  /** With a unique id, moving an image and moving it back to where it was restores the list. */
  lemma MoveIsUndoable(images: seq<Image>, id: string, i: nat, at: Position)
    requires OnlyAt(images, id, i)
    ensures MoveImages(MoveImages(images, id, at), id, images[i].position) == images
  {
    var back := MoveImages(MoveImages(images, id, at), id, images[i].position);
    assert forall j :: 0 <= j < |images| ==> back[j] == images[j];
  }

  /** With a unique id, resizing an image and resizing it back restores the list. */
  lemma ResizeIsUndoable(images: seq<Image>, id: string, i: nat, size: int)
    requires OnlyAt(images, id, i)
    ensures ResizeImages(ResizeImages(images, id, size), id, images[i].size) == images
  {
    var back := ResizeImages(ResizeImages(images, id, size), id, images[i].size);
    assert forall j :: 0 <= j < |images| ==> back[j] == images[j];
  }

  /**
    `handlePositionChange`. The ids 'title' and 'subtitle' move the text;
    any other id moves the images carrying it.
   */
  function PositionChange(s: Session, element: string, at: Position): (r: Session)
    ensures r.hasUserMadeChanges
    ensures element == "title" ==>
      Get(r.options, TitlePosition) == At(at) &&
      forall k :: k != TitlePosition ==> Get(r.options, k) == Get(s.options, k)
    ensures element == "subtitle" ==>
      Get(r.options, SubtitlePosition) == At(at) &&
      forall k :: k != SubtitlePosition ==> Get(r.options, k) == Get(s.options, k)
    ensures element != "title" && element != "subtitle" ==>
      r.options.images == MoveImages(s.options.images, element, at) &&
      forall k :: k != Images ==> Get(r.options, k) == Get(s.options, k)
  {
    if element == "title" then UpdateOption(s, SetTitlePosition(at))
    else if element == "subtitle" then UpdateOption(s, SetSubtitlePosition(at))
    else UpdateOption(s, SetImages(MoveImages(s.options.images, element, at)))
  }

  /** `${timestamp}-${fileName}`, the id an uploaded image gets. */
  function UploadId(timestamp: nat, fileName: string): string {
    NatToString(timestamp) + "-" + fileName
  }

  /** The index of the first '-' in `s`, or `|s|` when there is none. */
  function DashIndex(s: string): (i: nat)
    ensures i <= |s|
    ensures i < |s| ==> s[i] == '-'
    ensures forall j :: 0 <= j < i ==> s[j] != '-'
  {
    if |s| == 0 then 0 else if s[0] == '-' then 0 else 1 + DashIndex(s[1..])
  }

  /** In an upload id the first dash is the one right after the timestamp's digits. */
  lemma {:induction false} DashAfterDigits(digits: string, rest: string)
    requires AllDigits(digits)
    ensures DashIndex(digits + "-" + rest) == |digits|
    decreases |digits|
  {
    if |digits| > 0 {
      assert (digits + "-" + rest)[1..] == digits[1..] + "-" + rest;
      DashAfterDigits(digits[1..], rest);
    } else {
      assert (digits + "-" + rest)[0] == '-';
    }
  }

  /**
    Two uploads get the same id only if they happen at the same millisecond
    with the same file name, whatever dashes or digits the names contain.
   */
  lemma UploadIdInjective(t1: nat, name1: string, t2: nat, name2: string)
    requires UploadId(t1, name1) == UploadId(t2, name2)
    ensures t1 == t2 && name1 == name2
  {
    var d1, d2 := NatToString(t1), NatToString(t2);
    var s := UploadId(t1, name1);
    DashAfterDigits(d1, name1);
    DashAfterDigits(d2, name2);
    assert d1 == s[..|d1|] == d2;
    PrintInjective(t1, t2);
    assert name1 == s[|d1| + 1..] == name2;
  }

  /** An upload id starts with a digit, so it is never 'title', 'subtitle' or the preset's 'pencil'. */
  lemma UploadIdIsNoReservedId(t: nat, name: string)
    ensures IsDigit(UploadId(t, name)[0])
    ensures UploadId(t, name) != "title" && UploadId(t, name) != "subtitle" && UploadId(t, name) != "pencil"
  {
    var id := UploadId(t, name);
    assert id[0] == NatToString(t)[0];
    assert "title"[0] == 't' && "subtitle"[0] == 's' && "pencil"[0] == 'p';
  }

  /** The image an upload adds: size 100 at (70, 50). */
  function UploadedImage(timestamp: nat, fileName: string, dataUrl: string): Image {
    Image(UploadId(timestamp, fileName), dataUrl, 100, Position(70, 50))
  }

  /**
    The reader's `onload` in `handleImageUpload`, with the clock and the data
    URL passed in. It runs after the read finishes but appends to `captured`,
    the image list of the render in which the upload started: the image list
    current at load time is replaced, not extended.
   */
  function UploadLoaded(s: Session, captured: seq<Image>, timestamp: nat, fileName: string, dataUrl: string): (r: Session)
    ensures r.hasUserMadeChanges
    ensures |r.options.images| == |captured| + 1
    ensures r.options.images[..|captured|] == captured
    ensures r.options.images[|captured|] == Image(UploadId(timestamp, fileName), dataUrl, 100, Position(70, 50))
    ensures forall k :: k != Images ==> Get(r.options, k) == Get(s.options, k)
  {
    UpdateOption(s, SetImages(captured + [UploadedImage(timestamp, fileName, dataUrl)]))
  }

  /**
    An image removed while a file was being read comes back when the read
    finishes, because the load writes the list captured before the removal.
   */
  lemma RemovedDuringReadReturns(s: Session, captured: seq<Image>, id: string, timestamp: nat, fileName: string, dataUrl: string)
    requires captured == s.options.images
    ensures forall x :: x in captured ==>
      x in UploadLoaded(ImageRemove(s, id), captured, timestamp, fileName, dataUrl).options.images
  {
    var r := UploadLoaded(ImageRemove(s, id), captured, timestamp, fileName, dataUrl).options.images;
    forall x | x in captured
      ensures x in r
    {
      var i :| 0 <= i < |captured| && captured[i] == x;
      assert r[i] == x;
    }
  }

  /**
    `handleImageUpload` when nothing changed the images while the file was
    read: one new image is appended after the existing ones, which are untouched.
   */
  function ImageUpload(s: Session, timestamp: nat, fileName: string, dataUrl: string): (r: Session)
    ensures r.hasUserMadeChanges
    ensures |r.options.images| == |s.options.images| + 1
    ensures r.options.images[..|s.options.images|] == s.options.images
    ensures r.options.images[|s.options.images|] == Image(UploadId(timestamp, fileName), dataUrl, 100, Position(70, 50))
    ensures forall k :: k != Images ==> Get(r.options, k) == Get(s.options, k)
  {
    UploadLoaded(s, s.options.images, timestamp, fileName, dataUrl)
  }

  /** `images.filter(img => img.id !== id)`. */
  function WithoutId(images: seq<Image>, id: string): (r: seq<Image>)
    ensures |r| <= |images|
    ensures forall x :: x in r <==> x in images && x.id != id
    decreases |images|
  {
    if |images| == 0 then []
    else (if images[0].id == id then [] else [images[0]]) + WithoutId(images[1..], id)
  }

  /**
    Filtering distributes over concatenation; with the one-image case this
    says the kept images stay in their original relative order.
   */
  lemma {:induction false} WithoutIdSplits(a: seq<Image>, b: seq<Image>, id: string)
    ensures WithoutId(a + b, id) == WithoutId(a, id) + WithoutId(b, id)
    decreases |a|
  {
    if |a| > 0 {
      assert (a + b)[1..] == a[1..] + b;
      WithoutIdSplits(a[1..], b, id);
    } else {
      assert a + b == b;
    }
  }

  /** On one image the filter keeps it exactly when its id differs; with `WithoutIdSplits` this fixes the whole result. */
  lemma WithoutIdSingle(x: Image, id: string)
    ensures WithoutId([x], id) == if x.id == id then [] else [x]
  {
    assert [x][1..] == [];
  }

  /** Removing an id no image carries leaves the list equal. */
  lemma {:induction false} WithoutAbsentId(images: seq<Image>, id: string)
    requires AbsentId(images, id)
    ensures WithoutId(images, id) == images
    decreases |images|
  {
    if |images| > 0 {
      WithoutAbsentId(images[1..], id);
    }
  }

  /** Removing twice is removing once. */
  lemma WithoutIdIdempotent(images: seq<Image>, id: string)
    ensures WithoutId(WithoutId(images, id), id) == WithoutId(images, id)
  {
    var r := WithoutId(images, id);
    forall i | 0 <= i < |r|
      ensures r[i].id != id
    {
      assert r[i] in r;
    }
    WithoutAbsentId(r, id);
  }

  /** `handleImageRemove`: every image with that id goes, the rest stay in order. */
  function ImageRemove(s: Session, id: string): (r: Session)
    ensures r.hasUserMadeChanges
    ensures r.options.images == WithoutId(s.options.images, id)
    ensures forall x :: x in r.options.images <==> x in s.options.images && x.id != id
    ensures AbsentId(s.options.images, id) ==> r.options.images == s.options.images
    ensures forall k :: k != Images ==> Get(r.options, k) == Get(s.options, k)
  {
    var kept := WithoutId(s.options.images, id);
    assert AbsentId(s.options.images, id) ==> kept == s.options.images by {
      if AbsentId(s.options.images, id) {
        WithoutAbsentId(s.options.images, id);
      }
    }
    UpdateOption(s, SetImages(kept))
  }

  /** Removing a fresh upload by its id undoes the upload on the options. */
  lemma UploadThenRemove(s: Session, timestamp: nat, fileName: string, dataUrl: string)
    requires AbsentId(s.options.images, UploadId(timestamp, fileName))
    ensures ImageRemove(ImageUpload(s, timestamp, fileName, dataUrl), UploadId(timestamp, fileName)).options == s.options
  {
    var id := UploadId(timestamp, fileName);
    var u := ImageUpload(s, timestamp, fileName, dataUrl);
    var r := ImageRemove(u, id);
    RemoveUndoesUpload(s.options.images, UploadedImage(timestamp, fileName, dataUrl), id);
    forall k
      ensures Get(r.options, k) == Get(s.options, k)
    {
      if k != Images {
        assert Get(r.options, k) == Get(u.options, k);
      }
    }
    SameFieldsSameOptions(r.options, s.options);
  }

  /** Removing by the id of an image appended to a list without that id gives the list back. */
  lemma RemoveUndoesUpload(images: seq<Image>, img: Image, id: string)
    requires AbsentId(images, id) && img.id == id
    ensures WithoutId(images + [img], id) == images
  {
    WithoutIdSplits(images, [img], id);
    WithoutAbsentId(images, id);
    WithoutIdSingle(img, id);
  }

  /** `handleImageResize`: only the size of the images with that id changes. */
  function ImageResize(s: Session, id: string, size: int): (r: Session)
    ensures r.hasUserMadeChanges
    ensures r.options.images == ResizeImages(s.options.images, id, size)
    ensures forall k :: k != Images ==> Get(r.options, k) == Get(s.options, k)
  {
    UpdateOption(s, SetImages(ResizeImages(s.options.images, id, size)))
  }

  /** What the capture call did: a data URL, or a thrown error. */
  datatype Capture = Captured(dataUrl: string) | CaptureFailed(error: string)

  /** What `handleDownload` ends with; only `Saved` hands a file to the browser. */
  datatype DownloadOutcome =
    | Saved(dataUrl: string, fileName: string)
    | SvgNotSupported
    | CaptureError(error: string)
    | NoPreview

  /** The formats the download panel offers. */
  const Formats: seq<string> := ["png", "jpeg", "webp"]

  /**
    `handleDownload`. Without a mounted preview nothing happens. Otherwise the
    preview is captured first; a capture error is caught and logged, 'svg'
    is refused after a successful capture, and any other format is saved under
    `cover-photo.<format>` with the captured data as it is.
   */
  function Download(previewMounted: bool, format: string, capture: Capture): (r: DownloadOutcome)
    ensures r.Saved? <==> previewMounted && capture.Captured? && format != "svg"
    ensures r.Saved? ==> r.dataUrl == capture.dataUrl && r.fileName == "cover-photo." + format
    ensures r.SvgNotSupported? <==> previewMounted && capture.Captured? && format == "svg"
    ensures r.CaptureError? <==> previewMounted && capture.CaptureFailed?
    ensures r.NoPreview? <==> !previewMounted
  {
    if !previewMounted then NoPreview
    else match capture
      case CaptureFailed(e) => CaptureError(e)
      case Captured(data) => if format == "svg" then SvgNotSupported else Saved(data, "cover-photo." + format)
  }

  /** Every offered format is saved, and the file name tells the formats apart. */
  lemma OfferedFormatsAreSaved(i: nat, j: nat, data: string)
    requires i < |Formats| && j < |Formats|
    ensures Download(true, Formats[i], Captured(data)).Saved?
    ensures Download(true, Formats[i], Captured(data)).fileName == Download(true, Formats[j], Captured(data)).fileName ==> i == j
  {
    var p := "cover-photo.";
    var fi, fj := p + Formats[i], p + Formats[j];
    if fi == fj {
      assert Formats[i] == fi[|p|..] == fj[|p|..] == Formats[j];
    }
  }
}
