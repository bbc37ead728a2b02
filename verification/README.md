# beautiful_galery — verified model of the slideshow pipeline's pure core

`main.py` builds a folder of 1920x1080 slideshow images: for each of six
fixed tags it searches 500px, shuffles the result, keeps the photos that are
big enough and close enough to the canvas's aspect ratio, numbers them, and
for each one composes a canvas with the centred thumbnail, the title, an
optional location line, an optional HERE minimap and a QR code linking to
the photo page, saved as `output/<tag>_<index>.jpg`.

This project models the decisions inside that pipeline as pure Dafny
functions over already-decoded photo records, and proves what they
guarantee:

- `Selection` — the `process_tag` loop: the cut to the first 30 shuffled
  entries, the size rule, the aspect-ratio rule (on exact rationals, with a
  proof that it equals an integer cross-multiplied rule), the
  `ZeroDivisionError` a zero height raises after the size test, and dense
  numbering from 1. `ProcessTag` is the loop itself; `Survivors` is an
  independent filter definition it is proved against.
- `Compositor` — the plan `process_image` carries out: the paste offset
  (Python's truncating `int(x/2)`), the overlays in drawing order with their
  anchors and contents, the QR payload, and the output path, which is shown
  to be parseable back into (tag, index).
- `Minimap` — the point-of-interest list and the comma-joined `poi=`
  parameter of `generate_minimap`, with a split/join round trip.
- `Slideshow` — the tag list and the run-wide fact that no two jobs write
  the same file, which is what makes the unsynchronised concurrent writes
  safe.
- `Records`, `Text`, `Wrappers` — the photo record, Python truthiness and
  `str()` of JSON numbers, decimal rendering/parsing, join/split.

Inputs that the script gets from the outside world are parameters: the
shuffled photo list (the shuffle and the search request are not modelled),
the environment configuration (`Config`), and the size PIL's `thumbnail`
produced (`Compose`'s `thumbWidth`/`thumbHeight`).

Behaviour worth noting in `main.py`:

- The cap of 30 is applied to the shuffled list before filtering
  (`photos[0:30]`, main.py:53), so a tag can yield fewer than 30 jobs even
  when more than 30 of its photos would pass the filter.
- The minimap condition (main.py:95) is Python truthiness, so a latitude or
  longitude of exactly 0 suppresses the minimap just like a missing one.
- The QR payload (main.py:100) is `http://www.500px.com/` followed by the
  photo's `url` field, which is a page path.
- A photo with width at least 1920 and height 0 raises `ZeroDivisionError`
  at main.py:59. The loop only creates the `process_image` coroutines;
  they start at the `gather` after the loop, so none of that tag's images
  is produced (`Failure(DivisionByZero(position))`). Nothing catches the
  exception: it leaves `process_tag`, is re-raised by the `asyncio.gather`
  at main.py:32 (no `return_exceptions`), and `run_until_complete` at
  main.py:138 raises, so the whole run ends and jobs of other tags that
  have not finished write nothing. Any exception inside `process_image`
  (a failed download, an undecodable image or minimap) ends the run the
  same way, through main.py:68 and main.py:32.

## Model

| member | source | states |
|---|---|---|
| Selection.ProcessTag | main.py:49-66 | Fails exactly when some photo among the first 30 passes the size test with height 0, reporting the first such position; otherwise returns the accepted photos of the first 30 in input order as jobs of the tag numbered 1, 2, … |
| Selection.Examined | main.py:53 | Only the first `MAX_IMAGES_BY_TAG` = 30 entries (fewer if the list is shorter) are looked at, unchanged and in order |
| Selection.AcceptedIffIntegerRule | main.py:55-63 | `Accepted`, the size test and rational ratio test of main.py:55-63, holds iff (width ≥ 1920 or height ≥ 1080), height > 0, 3·width ≥ 4·height and 9·width ≤ 20·height, both ratio bounds inclusive |
| Selection.AcceptanceBoundaries | main.py:55-63 | 1440x1080 (ratio exactly 0.75×) and 2400x1080 (exactly 1.25×) are kept, one pixel beyond either is dropped; 1920x0 raises, 1919x0 is dropped as too small |
| Selection.Survivors | main.py:53-65 | The filtered list is never longer than its input |
| Selection.SurvivorsMembers | main.py:53-65 | A photo is a survivor exactly when it is in the examined list and accepted |
| Selection.SurvivorsInOrder | main.py:53-65 | Survivors are exactly the accepted positions of the input, in input order: each survivor has a strictly increasing input position and every accepted position appears |
| Selection.SurvivorsCount | main.py:53-65 | The number of survivors equals the number of accepted photos, duplicates included |
| Selection.NumberedIndicesDense | main.py:52-66 | The jobs of a tag use exactly the indices 1..k for k jobs, each once; skipped photos consume no index |
| Selection.JobsBounded | main.py:21-66 | A tag yields one job per accepted photo among the first 30 entries, hence at most 30 jobs; each job's photo is accepted and sits among the first 30 input entries |
| Compositor.TruncHalf | main.py:82 | `int(a/2)` truncates toward zero: for a ≥ 0 it is the floor of a/2, for a < 0 the ceiling |
| Compositor.PasteOffset | main.py:79-82 | For a thumbnail no larger than the canvas, the offset is non-negative, the image fits inside the canvas, and the left/top margin equals the right/bottom margin or is one pixel less |
| Compositor.PasteOffsetExample | main.py:82 | A 1000x600 thumbnail is pasted at (460, 240) |
| Compositor.Compose | main.py:73-105 | Title at (155,900) first and QR code at (20,885) last, always; location text at (250,10) iff the location is truthy; minimap at (20,20) with the HERE request iff longitude, latitude and key are truthy; location before minimap; source, offset and output path of the job |
| Compositor.ZeroLatitudeHasNoMinimap | main.py:95 | A latitude of exactly 0.0 suppresses the minimap whatever the other values |
| Compositor.QrPayload | main.py:100 | The payload is the fixed site prefix followed by the photo's `url`, which can be recovered by dropping the prefix |
| Compositor.QrPayloadInjective | main.py:100 | Different photo pages give different QR payloads |
| Compositor.FilenameRoundTrip | main.py:105 | The path `Filename` builds, `output/{tag}_{index}.jpg`, parses back to the same tag and index, even for tags containing underscores |
| Compositor.FilenameDistinct | main.py:105 | Jobs differing in tag or index write different files |
| Minimap.PoiList | main.py:108-111 | The list is `[str(lat), str(lon)]` (2 entries) unless both home values are set, then the home latitude and longitude follow (4 entries) |
| Minimap.PoiQueryRoundTrip | main.py:108-113 | Splitting `PoiQuery`, the `','.join` of the `poi=` parameter, on commas gives the point list back when the home values hold no comma |
| Minimap.MinimapRequest | main.py:113 | The request URL is the HERE map-view endpoint, then the key's text (`None` if unset), then the fixed rendering parameters (`…&w=200&h=200&poi=`), then the point query, each at its exact position |
| Records.Render | main.py:108 | `str()` of a JSON coordinate is non-empty and uses only digits, `-` and `.` (so never a comma) |
| Records.ParseRender | main.py:108 | For numbers in Python's `str()` spelling (a float's fraction is `0` or ends in a non-zero digit), the text reads back as the same number, so different coordinates print differently |
| Records.RenderExamples | main.py:108 | `str()` gives `48.85`, `-2.0` and `-3` for those values |
| Slideshow.TagsDistinct | main.py:16 | The six configured tags are pairwise different |
| Slideshow.NumberedTagsFormRun | main.py:29-32 | The jobs `ProcessTag` returns for each configured tag together form the jobs of a run: each tagged with its tag and numbered from 1 |
| Slideshow.RunFilenamesDistinct | main.py:29-32 | Across all tags of a run, two different jobs never write the same output file |
| Slideshow.NatureScenario | main.py:49-66 | Of five `nature` photos exactly two pass and are saved as `output/nature_1.jpg` and `output/nature_2.jpg` in input order |

## Left out

- Network I/O and concurrency (aiohttp sessions, `asyncio.gather`, main.py:26-32, 45-46, 68, 75-76, 117-118): modelled only through their consequence that every job writes a distinct file.
- Exceptions beyond the tag: the model stops at `ProcessTag`'s `Failure`; that an uncaught exception in any tag or job ends the whole run (main.py:32, 68, 138) is described above but not modelled, and `Compose` describes only a job whose downloads succeed.
- `random.shuffle` (main.py:49): the shuffled list is an input.
- PIL imaging (`Image.new`, `open`, `thumbnail`, `paste`, `truetype`, `text`, `save`, main.py:73-105, 120): the thumbnail size is a parameter and drawing is represented by the overlay plan; the font sizes (72 and 28) and fill colour are not part of the plan.
- QR symbol encoding (main.py:123-133): only the payload is modelled.
- Directory creation and cleanup (main.py:34-42): filesystem I/O. As written, main.py:36 passes the undefined name `output` to `os.mkdir`, so a missing directory raises `NameError`.
- Environment loading (main.py:11-20): the three variables are the `Config` parameter.
- JSON decoding of the search response (main.py:46-48) and the `print` calls: photos are already-decoded records; a missing key (`KeyError`) is not modelled.
- Selection.AcceptedIffIntegerRule: compares exact rationals, not IEEE doubles; Python's doubles give the same verdict on both bounds (w/h and the bound round to the same double) and for every height below about 10^14; larger sizes are not modelled.
- Records.Render: a float is held in `str()`'s spelling (the `JsonNumber` subset type: the fraction is `0` or ends in a non-zero digit); which digits Python's shortest-repr algorithm picks for a given double, and the exponent forms it uses below 1e-4 or from 1e16, are not modelled.
