/**
  The image panel: the file picker that renames an upload with a timestamp,
  and one card per image with a size slider and a remove button.
 */
module ImageControls {
  import opened Wrappers
  import opened Decimal
  import opened Options
  import Builder

  /** A picked file: its name, MIME type and contents (opaque here). */
  datatype File = File(name: string, mimeType: string, content: string)

  /** What a size slider can report: integers from 20 to 600. */
  type SizeValue = v: int | 20 <= v <= 600 witness 20

  /** A callback the panel makes to the builder. */
  datatype Request = Upload(file: File) | Remove(id: string) | Resize(id: string, size: int)

  /** `new File([file], `${timestamp}-${file.name}`, { type: file.type })`. */
  function Renamed(file: File, timestamp: nat): (r: File)
    ensures r.name == NatToString(timestamp) + "-" + file.name
    ensures r.mimeType == file.mimeType && r.content == file.content
  {
    file.(name := NatToString(timestamp) + "-" + file.name)
  }

  /** `handleFileChange`: no call without a file; otherwise only the first file, renamed, is uploaded. */
  function FileChange(files: seq<File>, timestamp: nat): (r: Option<Request>)
    ensures r.None? <==> |files| == 0
    ensures r.Some? ==> r.value == Upload(Renamed(files[0], timestamp))
  {
    if |files| == 0 then None else Some(Upload(Renamed(files[0], timestamp)))
  }

  /**
    The renaming can be undone by cutting at the first dash: the part before
    it reads back as the timestamp and the part after it is the original
    name, whatever dashes that name contains.
   */
  lemma RenamingIsReversible(file: File, timestamp: nat)
    ensures var n := Renamed(file, timestamp).name;
      var i := Builder.DashIndex(n);
      i < |n| && AllDigits(n[..i]) && ParseNat(n[..i]) == timestamp && n[i + 1..] == file.name
  {
    var d := NatToString(timestamp);
    var n := Renamed(file, timestamp).name;
    Builder.DashAfterDigits(d, file.name);
    assert n[..|d|] == d;
    ParsePrinted(timestamp);
  }

  /** One card of the panel: its React key, thumbnail and the size its slider shows. */
  datatype Card = Card(key: string, url: string, size: int)

  /** The cards: one per image, in list order, keyed by the image id. */
  function Cards(images: seq<Image>): (r: seq<Card>)
    ensures |r| == |images|
    ensures forall i :: 0 <= i < |images| ==> r[i] == Card(images[i].id, images[i].url, images[i].size)
  {
    seq(|images|, i requires 0 <= i < |images| => Card(images[i].id, images[i].url, images[i].size))
  }

  /** A user action on the panel; `card` indexes the card list. */
  datatype Action =
    | ChooseFiles(files: seq<File>, timestamp: nat)
    | Slide(card: nat, value: SizeValue)
    | ClickRemove(card: nat)

  /** The callbacks one action makes; a card index past the list names no card and does nothing. */
  function Requests(images: seq<Image>, a: Action): (r: seq<Request>)
    ensures a.ChooseFiles? ==>
      (|a.files| == 0 ==> r == []) && (|a.files| > 0 ==> r == [Upload(Renamed(a.files[0], a.timestamp))])
    ensures a.Slide? && a.card < |images| ==> r == [Resize(Cards(images)[a.card].key, a.value)]
    ensures a.ClickRemove? && a.card < |images| ==> r == [Remove(Cards(images)[a.card].key)]
    ensures !a.ChooseFiles? && a.card >= |images| ==> r == []
  {
    match a
    case ChooseFiles(files, t) => (match FileChange(files, t) case Some(req) => [req] case None => [])
    case Slide(i, v) => if i < |images| then [Resize(images[i].id, v)] else []
    case ClickRemove(i) => if i < |images| then [Remove(images[i].id)] else []
  }

  /** Every resize the panel asks for is to a size in [20, 600], for an image in the list. */
  lemma ResizeRequestsAreInRange(images: seq<Image>, a: Action, j: nat)
    requires j < |Requests(images, a)| && Requests(images, a)[j].Resize?
    ensures 20 <= Requests(images, a)[j].size <= 600
    ensures exists i :: 0 <= i < |images| && images[i].id == Requests(images, a)[j].id
  {
    assert a.Slide?;
    assert images[a.card].id == Requests(images, a)[j].id;
  }

  /** Every remove the panel asks for names an image in the list. */
  lemma RemoveRequestsNameAnImage(images: seq<Image>, a: Action, j: nat)
    requires j < |Requests(images, a)| && Requests(images, a)[j].Remove?
    ensures exists i :: 0 <= i < |images| && images[i].id == Requests(images, a)[j].id
  {
    assert a.ClickRemove?;
    assert images[a.card].id == Requests(images, a)[j].id;
  }
}
