/** The decisions `process_image` makes (main.py:79-105): where the
    thumbnail is pasted, which overlays are drawn at which anchors with
    which content, and the file the result is saved to. Nothing is drawn;
    a `Composition` is the plan PIL would carry out. */
module Compositor {
  import opened Wrappers
  import opened Text
  import opened Records
  import opened Minimap

  datatype Point = Point(x: int, y: int)

  /** One element drawn or pasted onto the canvas, in drawing order. */
  datatype Overlay =
    | TitleText(at: Point, text: string)
    | LocationText(at: Point, text: string)
    | MinimapImage(at: Point, request: string)
    | QrCode(at: Point, payload: string)

  /** The plan for one job: the image downloaded, where its thumbnail is
      pasted, the overlays in drawing order, and the output path. */
  datatype Composition = Composition(
    source: string,
    offset: Point,
    overlays: seq<Overlay>,
    file: string)

  /** Fixed anchors (main.py:89, 92, 97, 102). */
  const TitleAnchor: Point := Point(155, 900)
  const LocationAnchor: Point := Point(250, 10)
  const MinimapAnchor: Point := Point(20, 20)
  const QrAnchor: Point := Point(20, 885)

  /** Prefix of the QR payload (main.py:100). */
  const QrPrefix: string := "http://www.500px.com/"

  /** Python's `int(a / 2)`: true division, then truncation toward zero
      (not Dafny's Euclidean division, which differs for odd negatives). */
  function TruncHalf(a: int): (q: int)
    ensures a >= 0 ==> 0 <= q && 0 <= a - 2 * q <= 1
    ensures a < 0 ==> q <= 0 && 0 <= 2 * q - a <= 1
  {
    if a >= 0 then a / 2 else -((-a) / 2)
  }

  /** The paste position of a `w`x`h` thumbnail (main.py:82). When the
      thumbnail fits the canvas, as `thumbnail` guarantees, the image lies
      inside the canvas and is centred: the left (top) margin is the right
      (bottom) margin or one pixel less. */
  function PasteOffset(w: int, h: int): (p: Point)
    ensures 0 <= w <= CanvasWidth ==>
      && 0 <= p.x && p.x + w <= CanvasWidth
      && p.x <= CanvasWidth - w - p.x <= p.x + 1
    ensures 0 <= h <= CanvasHeight ==>
      && 0 <= p.y && p.y + h <= CanvasHeight
      && p.y <= CanvasHeight - h - p.y <= p.y + 1
  {
    Point(TruncHalf(CanvasWidth - w), TruncHalf(CanvasHeight - h))
  }

  /** A 1000x600 thumbnail is pasted at (460, 240). */
  lemma PasteOffsetExample()
    ensures PasteOffset(1000, 600) == Point(460, 240)
  {
  }

  /** The QR payload: the fixed site prefix followed by the photo's `url`;
      removing the prefix gives the `url` back. */
  function QrPayload(url: string): (payload: string)
    ensures |payload| == |QrPrefix| + |url|
    ensures payload[..|QrPrefix|] == QrPrefix
    ensures payload[|QrPrefix|..] == url
  {
    QrPrefix + url
  }

  /** Distinct photo pages get distinct QR payloads. */
  lemma QrPayloadInjective(a: string, b: string)
    requires QrPayload(a) == QrPayload(b)
    ensures a == b
  {
  }

  /** The output path `f"output/{tag}_{index}.jpg"` (main.py:105). */
  function Filename(tag: string, index: nat): string {
    "output/" + tag + "_" + NatToString(index) + ".jpg"
  }

  /** The part of an output path between `output/` and `.jpg`. */
  function StripAffixes(s: string): Option<string> {
    if |s| < 11 || s[..7] != "output/" || s[|s| - 4..] != ".jpg" then None
    else Some(s[7..|s| - 4])
  }

  /** Splits `tag_index` at its last underscore: the index is the digit run
      after it, the tag everything before. */
  function ParseStem(body: string): Option<(string, nat)> {
    match LastIndexOf(body, '_')
    case None => None
    case Some(u) =>
      var digits := body[u + 1..];
      if |digits| >= 1 && AllDigits(digits) then Some((body[..u], ParseDigits(digits)))
      else None
  }

  /** Reads a tag and an index back out of an output path. */
  function ParseFilename(s: string): Option<(string, nat)> {
    match StripAffixes(s)
    case None => None
    case Some(body) => ParseStem(body)
  }

  lemma StripAffixesOfFilename(tag: string, index: nat)
    ensures StripAffixes(Filename(tag, index)) == Some(tag + "_" + NatToString(index))
  {
    var s := Filename(tag, index);
    var body := tag + "_" + NatToString(index);
    assert s == "output/" + body + ".jpg";
    assert s[..7] == "output/";
    assert s[|s| - 4..] == ".jpg";
    assert s[7..|s| - 4] == body;
  }

  lemma ParseStemRoundTrip(tag: string, index: nat)
    ensures ParseStem(tag + "_" + NatToString(index)) == Some((tag, index))
  {
    var digits := NatToString(index);
    var body := tag + "_" + digits;
    assert '_' !in digits by {
      assert forall i :: 0 <= i < |digits| ==> IsDigitChar(digits[i]);
    }
    LastIndexAfter(tag, '_', digits);
    assert tag + ['_'] + digits == body;
    assert body[|tag| + 1..] == digits;
    assert body[..|tag|] == tag;
    ParseNatToString(index);
  }

  /** Every output path names its tag and index unambiguously, even when
      the tag itself contains underscores. */
  lemma FilenameRoundTrip(tag: string, index: nat)
    ensures ParseFilename(Filename(tag, index)) == Some((tag, index))
  {
    StripAffixesOfFilename(tag, index);
    ParseStemRoundTrip(tag, index);
  }

  /** Two jobs with a different tag or a different index never write the
      same file. */
  lemma FilenameDistinct(tag1: string, index1: nat, tag2: string, index2: nat)
    requires tag1 != tag2 || index1 != index2
    ensures Filename(tag1, index1) != Filename(tag2, index2)
  {
    FilenameRoundTrip(tag1, index1);
    FilenameRoundTrip(tag2, index2);
  }

  /** `if json['location']:` (main.py:91). */
  predicate LocationShown(p: Photo) {
    TruthyText(p.location)
  }

  /** `if json['longitude'] and json['latitude'] and HERE_API_KEY:`
      (main.py:95); a coordinate of exactly zero suppresses the minimap. */
  predicate MinimapShown(cfg: Config, p: Photo) {
    TruthyNumber(p.longitude) && TruthyNumber(p.latitude) && TruthyText(cfg.hereApiKey)
  }

  /** The plan `process_image` carries out for one job, given the size
      `thumbWidth`x`thumbHeight` that PIL's `thumbnail` produced. The title
      comes first and the QR code last, both always; the location text is
      there exactly when the location is truthy and the minimap exactly when
      both coordinates and the key are; the location is drawn before the
      minimap. */
  function Compose(cfg: Config, job: Job, thumbWidth: int, thumbHeight: int): (c: Composition)
    ensures c.source == job.photo.imageUrl
    ensures c.offset == PasteOffset(thumbWidth, thumbHeight)
    ensures c.file == Filename(job.tag, job.index)
    ensures |c.overlays| ==
      2 + (if LocationShown(job.photo) then 1 else 0) + (if MinimapShown(cfg, job.photo) then 1 else 0)
    ensures c.overlays[0] == TitleText(TitleAnchor, job.photo.name)
    ensures c.overlays[|c.overlays| - 1] == QrCode(QrAnchor, QrPayload(job.photo.url))
    ensures forall i :: 0 < i < |c.overlays| - 1 ==>
      !c.overlays[i].TitleText? && !c.overlays[i].QrCode?
    ensures (exists i :: 0 <= i < |c.overlays| && c.overlays[i].LocationText?) <==>
      LocationShown(job.photo)
    ensures forall i :: 0 <= i < |c.overlays| && c.overlays[i].LocationText? ==>
      LocationShown(job.photo) &&
      c.overlays[i] == LocationText(LocationAnchor, job.photo.location.value)
    ensures (exists i :: 0 <= i < |c.overlays| && c.overlays[i].MinimapImage?) <==>
      MinimapShown(cfg, job.photo)
    ensures forall i :: 0 <= i < |c.overlays| && c.overlays[i].MinimapImage? ==>
      MinimapShown(cfg, job.photo) &&
      c.overlays[i] == MinimapImage(MinimapAnchor,
        MinimapRequest(cfg, job.photo.latitude.value, job.photo.longitude.value))
    ensures forall i, j ::
      (0 <= i < |c.overlays| && 0 <= j < |c.overlays| &&
       c.overlays[i].LocationText? && c.overlays[j].MinimapImage?) ==> i < j
  {
    var p := job.photo;
    var title := [TitleText(TitleAnchor, p.name)];
    var location :=
      if LocationShown(p) then [LocationText(LocationAnchor, p.location.value)] else [];
    var minimap :=
      if MinimapShown(cfg, p)
      then [MinimapImage(MinimapAnchor,
              MinimapRequest(cfg, p.latitude.value, p.longitude.value))]
      else [];
    var qr := [QrCode(QrAnchor, QrPayload(p.url))];
    var overlays := title + location + minimap + qr;
    assert LocationShown(p) ==> overlays[1].LocationText?;
    assert MinimapShown(cfg, p) ==> overlays[|overlays| - 2].MinimapImage?;
    Composition(
      p.imageUrl,
      PasteOffset(thumbWidth, thumbHeight),
      overlays,
      Filename(job.tag, job.index))
  }

  /** A latitude of exactly `0.0` counts as missing: no minimap is pasted,
      even with a key and a non-zero longitude. */
  lemma ZeroLatitudeHasNoMinimap(cfg: Config, job: Job, w: int, h: int)
    requires job.photo.latitude == Some(Float(false, 0, [0]))
    ensures forall i :: 0 <= i < |Compose(cfg, job, w, h).overlays| ==>
      !Compose(cfg, job, w, h).overlays[i].MinimapImage?
  {
  }
}
