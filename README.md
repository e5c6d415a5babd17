# LabelToolUtil converters, modelled in Dafny

LabelToolUtil turns two kinds of annotation into LabelMe JSON documents
(schema version "4.5.5"), one document per image, each holding a list of
rectangle shape records:

- `img2labelmeJson.py` keeps the connected components of a text mask whose
  area reaches 30 × 30 pixels and emits their bounding boxes as rectangles
  labelled "a". It can also emit caller-supplied boxes, labelled "None". The
  image is embedded as base64 (JPEG for `.jpg`/`.jpeg`, PNG otherwise), and
  the document is written to `<outRoot>/<stem>.json`.
- `parse.py` walks Manga109 annotation trees. For every page under a `pages`
  element it opens the image `<index zero-filled to 3>.jpg` and writes
  `<that name up to its first dot>.json` next to it. The document holds one
  "a" rectangle for every `text` element with `xmin < xmax` and
  `ymin < ymax`, in document order. The first exception (a missing
  attribute, a coordinate `int()` rejects, an image that cannot be opened)
  ends the whole run. The files written before it stay written.

The model is split into these modules:

- `Wrappers` holds Option and Result.
- `Paths` holds the `posixpath` functions the converters use to name files:
  `basename`, `splitext`, `join`, ASCII `lower`, and `split('.')[0]`.
- `PyStr` holds Python's `int()` on text, `str.zfill` and `str(n)`. The
  facts about them are in `PyStrFacts` and `ZFillFacts`.
- `LabelMe` holds the record and document schema.
- `Img2LabelmeJson` models the first script. The statistics filter and the
  two record builders are loops over sequences. Building p2 copies p1 and
  then moves the copy; this is modelled on two-element arrays, so it is
  proved that p1 is left alone.
- `ParseSpec` states what `parse` computes, as functions: one outcome per
  page, and a run that writes outcomes until the first failure.
- `ParseRun` holds the nested loops of `parse` as methods. Each is proved to
  compute its `ParseSpec` function.
- `PageFacts` and `RunFacts` prove what the walk guarantees: which elements
  become records, in what order, under which names, and when the run stops.

Foreign calls are parameters:

- the statistics table of `cv2.connectedComponentsWithStats` (row 0 is the
  background);
- the image size;
- `encode: ImageFormat -> string`, which stands for PIL's save followed by
  base64;
- in `parse`, `load: string -> Option<LoadedImage>`, which stands for
  `Image.open`, `image.size` and `img_to_base64`. It yields None when the
  image cannot be opened.

The XML files are given already parsed, as a sequence of `Element` trees in
directory-listing order.

Behaviour of the code worth noting:

- `parse` does not skip a failing item. Any exception ends the run.
- Every child of a `pages` element is treated as a page, whatever its tag.
- `zfill(3)` pads to at least three characters; longer indexes are kept
  whole.
- The emitter names its output after the file name's stem (`splitext`), not
  after its full basename.

## Model

| member | source | states |
|---|---|---|
| Img2LabelmeJson.KeptLabels | img2labelmeJson/img2labelmeJson.py:93-95 | every kept label is a non-background label (≥ 1) and a row of the table |
| Img2LabelmeJson.KeptLabelsExactly | img2labelmeJson/img2labelmeJson.py:89-95 | a label is kept iff it is not 0 and its area is at least 30*30 |
| Img2LabelmeJson.KeptLabelsAscending | img2labelmeJson/img2labelmeJson.py:93 | kept labels come out in strictly ascending label order (a subsequence of 1..n-1) |
| Img2LabelmeJson.CopyPoint | img2labelmeJson/img2labelmeJson.py:101 | `p1.copy()` is a fresh array with the same coordinates |
| Img2LabelmeJson.ConnectedComponentRegions | img2labelmeJson/img2labelmeJson.py:89-107 | one region per kept label, in label order, each equal to that component's [p1, p2] |
| Img2LabelmeJson.BoxesToShapes | img2labelmeJson/img2labelmeJson.py:27-47 | one record per box, in box order: label "None", rectangle, no group id, no flags, points [[xmin,ymin],[xmax,ymax]] |
| Img2LabelmeJson.RegionsToShapes | img2labelmeJson/img2labelmeJson.py:49-69 | one record per region, in region order, with the given label (default "a"), the fixed fields and the region's two points |
| Img2LabelmeJson.FormatOfStem | img2labelmeJson/img2labelmeJson.py:15-20 | for `stem.ext`, the format is JPEG iff the lower-cased ext is "jpg" or "jpeg", and PNG otherwise |
| Img2LabelmeJson.DotFileIsPng | img2labelmeJson/img2labelmeJson.py:15-20 | ".jpg" alone has no extension for `splitext`, so it is saved as PNG |
| Img2LabelmeJson.NoDotNames | img2labelmeJson/img2labelmeJson.py:15-20 | a file name without a dot has no extension, so it is saved as PNG and its output name is the whole name plus ".json" |
| Img2LabelmeJson.JsonNameOfStem | img2labelmeJson/img2labelmeJson.py:132 | a file `stem.ext` gets the output name `stem.json` |
| Img2LabelmeJson.OutputNameOfImage | img2labelmeJson/img2labelmeJson.py:122-133 | the file written inside outRoot is named `stem.json` |
| Img2LabelmeJson.GenerateImgLabelJson | img2labelmeJson/img2labelmeJson.py:113-145 | nothing is written iff both inputs are None; regions take precedence over boxes (an empty list counts as given); the document has the regions' or boxes' records, the basename as image path, the data encoded in the chosen format, the image size, and goes to outRoot/stem.json |
| Paths.RFind | img2labelmeJson/img2labelmeJson.py:15 | the index found holds the character, and nothing after it does; -1 when absent |
| Paths.BeforeFirst | parse.py:71 | `split('.')[0]` is the longest dot-free prefix, followed by a dot when shorter than the string |
| Paths.Basename | img2labelmeJson/img2labelmeJson.py:122 | the basename is the separator-free suffix that follows the last separator |
| Paths.SplitExt | img2labelmeJson/img2labelmeJson.py:15 | root + ext is the path; ext is empty or a single dot followed by no dot and no separator |
| Paths.JoinBasename | img2labelmeJson/img2labelmeJson.py:133 | a separator-free name joined onto any folder is that path's basename |
| Paths.SplitExtOfStem | img2labelmeJson/img2labelmeJson.py:132 | `splitext("stem.ext")` is ("stem", ".ext") when the stem is not all dots |
| PyStr.ZFill | parse.py:42 | the result has length max(len, width); it is unchanged when long enough; otherwise the zeros sit in front, after the sign if there is one |
| ZFillFacts.ZFillKeepsValue | parse.py:42 | zero-filling a number text keeps its sign and the value of its digits |
| ZFillFacts.ZFillKeepsDigits | parse.py:42 | zero-filling a signed digit run keeps the sign in front and the digits' value |
| ZFillFacts.ZFillOfSignedRun | parse.py:42 | a short signed digit run is padded as sign, zeros, digits |
| PyStrFacts.StripSlice | parse.py:51 | what `int()` reads after stripping is a slice of the text that neither starts nor ends with whitespace, and everything cut off before and after it is whitespace `int()` ignores |
| PyStrFacts.StripUnspaced | parse.py:51 | text without surrounding whitespace is its own strip |
| PyStrFacts.ParseIntOfDigitRun | parse.py:51 | `int()` reads a digit run, optionally signed, as the number it denotes (of any length; see Left out for CPython's digit limit) |
| PyStrFacts.ParseIntDecimal | parse.py:51 | `int(str(n)) == n` for every integer n (of any length; see Left out for CPython's digit limit) |
| PyStrFacts.SignedDigitRun | parse.py:51 | a stripped text `int()` accepts is a digit run behind an optional sign |
| ParseSpec.Positions | parse.py:48-68 | the record positions of a page lie within it and ascend strictly |
| PageFacts.BoxRecordExactly | parse.py:51-68 | with four integer coordinates, a record is made iff xmin<xmax and ymin<ymax, and it is the "a" rectangle [[xmin,ymin],[xmax,ymax]] |
| PageFacts.BoxRecordFailure | parse.py:51 | the test raises iff a conversion it reaches raises (xmin, xmax, then the y pair only when xmin<xmax), and the exception is the first one reached |
| PageFacts.ElementRecordExactly | parse.py:49-68 | an element yields a record iff it is a `text` element with xmin<xmax and ymin<ymax, and the record holds those points |
| PageFacts.ElementRecordValid | parse.py:49-68 | every record comes from a `text` element and is a non-degenerate "a" rectangle |
| PageFacts.CollectStops | parse.py:46-68 | once an exception is raised, the rest of the page is not read |
| PageFacts.CollectSucceeds | parse.py:46-68 | the shape list is built iff no element raises |
| PageFacts.CollectInOrder | parse.py:46-68 | the shape list is the records of the elements that have one, in element order |
| PageFacts.PositionsExactly | parse.py:48-68 | a position is listed iff its element contributes a record |
| PageFacts.PageRecordsSucceeds | parse.py:48-51 | a page is read without exception iff none of its elements raises |
| PageFacts.PageRecordsInOrder | parse.py:46-68 | a page's shapes are exactly the records of its yielding `text` elements, in document order |
| PageFacts.RecordIndicesExactly | parse.py:48-51 | an element is among the record positions iff it yields a record |
| PageFacts.PageRecordsValid | parse.py:51-63 | every record on a page satisfies xmin<xmax and ymin<ymax and is an "a" rectangle |
| PageFacts.InvertedTextDropped | parse.py:51 | a text element with an inverted box contributes nothing |
| PageFacts.PageNames | parse.py:71 | for an index without a dot, the image is the padded index + ".jpg", the document is the padded index + ".json", and the padding is to at least 3 characters |
| PageFacts.PageSeven | parse.py:42 | page "7" is image "007.jpg" and document "007.json" |
| PageFacts.PageOutcomeValid | parse.py:41-85 | a converted page's document holds only non-degenerate "a" rectangles and names its own image |
| RunFacts.PagesOfOnlyPages | parse.py:38-41 | every page visited is a child of a root child tagged `pages` |
| RunFacts.PagesOfAppend | parse.py:38-41 | the pages of consecutive root children are visited consecutively |
| RunFacts.PageOutcomesAppend | parse.py:41 | the outcomes of consecutive pages are produced consecutively |
| RunFacts.AllOutcomesAppend | parse.py:28 | the outcomes of consecutive annotation files are produced consecutively |
| RunFacts.RunOutcomesAbsorbs | parse.py:28-85 | after an exception nothing more happens |
| RunFacts.RunOutcomesAppend | parse.py:28-85 | the run over a + b is the run over a continued over b |
| RunFacts.RunOutcomesStops | parse.py:28-85 | once the run has stopped, later outcomes are ignored |
| RunFacts.RunOutcomesResult | parse.py:28-85 | the files written are the successful outcomes before the first failure, in order; the run stops with that failure's exception |
| RunFacts.PageOutcomesValid | parse.py:41-85 | every document a sequence of pages yields holds only non-degenerate "a" rectangles |
| RunFacts.AllOutcomesValid | parse.py:28-85 | every document from every annotation file holds only non-degenerate "a" rectangles |
| RunFacts.RunKeepsTextRecords | parse.py:72-85 | a run writes only documents its outcomes hold |
| RunFacts.ConversionValid | parse.py:24-87 | every document `parse` writes holds only non-degenerate "a" rectangles |
| ParseRun.CollectTextShapes | parse.py:46-68 | the page's `shape` loop computes the page's records, or the first exception |
| ParseRun.ConvertPage | parse.py:42-85 | one page: KeyError without an index, an image error when the image cannot be opened, else its document at manga_folder/<stem>.json |
| ParseRun.ConvertPages | parse.py:41-85 | the loop over one `pages` element writes the pages' documents in order, until the first exception |
| ParseRun.ConvertTree | parse.py:35-85 | one annotation tree: KeyError without a title, else the pages of every `pages` child, in order |
| ParseRun.Parse | parse.py:24-87 | the whole run over the annotation trees equals the conversion specified in ParseSpec |

## Left out

- The OpenCV pipeline (`imread`, `cvtColor`, `threshold`, `bitwise_not`, `bitwise_and`, `connectedComponentsWithStats`, img2labelmeJson/img2labelmeJson.py:72-92) is a foreign library. Its statistics table is an input.
- PIL loading and saving, image sizes and base64 encoding (img2labelmeJson/img2labelmeJson.py:12-24, 129-130, 140-141; parse.py:11-16, 44, 78-80) are foreign calls on binary codecs. They are the parameters `size`, `encode` and `load`.
- JSON serialisation (indentation, key sorting) and file writes (img2labelmeJson/img2labelmeJson.py:133-145; parse.py:72-85) are I/O. A document is produced as a value together with its path.
- ParseRun.ConvertPage: in `parse` the json file is opened for writing (parse.py:72) before `img_to_base64` reads the image (parse.py:78). A failure while reading the image bytes therefore leaves an empty json file behind. Here the image and its data come from one `load` call made before anything is written.
- Directory creation and listing and `ET.parse` (img2labelmeJson/img2labelmeJson.py:118-120; parse.py:25-33) are filesystem and parser I/O. The trees are an input sequence, and a malformed XML file is not modelled.
- The `print` diagnostics (img2labelmeJson/img2labelmeJson.py:115, 119; parse.py:86) are output only.
- Both command-line entry points (img2labelmeJson/img2labelmeJson.py:147-163; parse.py:18-22, 90-93) are not modelled. The one in img2labelmeJson.py cannot run as written: it subscripts an ArgumentParser, calls `os.exist`, and uses an undefined `outRoot`.
- Img2LabelmeJson.GenerateImgLabelJson: a `PIL.Image.open` failure raises in the source. Here the image size and the encoder are given, so that failure is not modelled.
- Img2LabelmeJson.ConnectedComponentRegions: OpenCV returns int32 statistics. Here they are unbounded integers, so `left + width` cannot wrap around. It cannot wrap for any image OpenCV can label.
- Img2LabelmeJson.BoxesToShapes: box coordinates are taken as integers, so `int(box['xmin'])` on a float or text value is not modelled.
- Img2LabelmeJson.RegionsToShapes: the label is a string, so `str(label)` on other label types is not modelled.
- Paths.Lower: only ASCII letters are lower-cased. No non-ASCII character lower-cases into the letters of "jpg" or "jpeg", so the JPEG decision is exact.
- PyStr.ParseInt: CPython 3.11 and later (and the security releases of earlier versions) raise ValueError when `int()` is given a decimal text longer than 4300 digits, and `str(n)` raises for such integers too. The model has no digit limit, so PyStrFacts.ParseIntOfDigitRun and PyStrFacts.ParseIntDecimal hold only for texts and integers within that limit in those versions.
- PyStrFacts.ParseIntOfDigitRun: `int()` also accepts non-ASCII decimal digits (Arabic-Indic, full-width and others). `PyStr.ParseInt` rejects them, so on such text the model raises ValueError where Python does not.
- ParseRun.CollectTextShapes: `parse` converts each coordinate twice, once in the test and once in the record. Both conversions give the same value, so each coordinate is converted once here.
