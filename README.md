# Image cropper: crop-selection model

This project models the crop-selection state machine of the image cropper in
`resize.py`, class `ImageCropper`. The cropper walks through the image files
of an input folder one at a time. It shows each image scaled to fit the
screen and draws a red crop square on it. The user places the square by
clicking or dragging and sets its side with a slider. On confirmation, the
square is carried back to the original image's coordinates, the cropped area
is saved at 224x224 under the file's own name, and the next image is shown.
After the last image the session quits.

The model has five modules:

- `ImageFiles` (`image_files.dfy`): the extension filter over a directory
  listing.
- `Display` (`display.dfy`): the fit-to-screen size arithmetic, with a real
  reference definition of `floor(dimension * scale)`.
- `CropSquare` (`crop_square.dfy`): the initial square, where a click or drag
  puts the square, and what the slider does to it, as pure functions.
- `OriginalCoords` (`original_coords.dfy`): the display-to-original coordinate
  map used when a crop is confirmed.
- `Cropper` (`cropper.dfy`): the class `ImageCropper`. Its fields are the file
  list, the cursor, the original and displayed dimensions, the crop size, the
  crop square and the list of files written. Its methods update those fields
  as the event handlers do, and `Valid()` is the invariant every handler keeps.

Arithmetic is exact. Integers are unbounded. Where the program computes with
floats and truncates with `int()`, the model computes the same value with
exact integer division. Lemmas tie that division to the exact real-number
expression, rounded down.

Three behaviours of the code worth stating up front:

- The initial square is anchored at the display origin, not centred
  (`resize.py:60-61`).
- `update_crop_size` applies no clamp of its own; the range `[50, min(w, h)]`
  comes from the slider widget (`resize.py:63`). The model states that range
  as a precondition of `UpdateCropSize`.
- The y coordinates are mapped with the width ratio, not the height ratio.
  The two differ only through rounding of the display size: a 3x2 image on a
  100x1 screen is shown at 1x1, and the full square maps to y2' = 3 on an
  original 2 pixels tall (`ToOriginalCanLeaveHeight`).

## Model

| member | source | states |
|---|---|---|
| ImageFiles.LowerChar | resize.py:23 | ASCII upper-case letters map to the matching lower-case letter; every other character is unchanged |
| ImageFiles.Lower | resize.py:23 | the lower-cased name has the same length and is lower-cased character by character |
| ImageFiles.EndsWithAny | resize.py:23 | `endswith` with a tuple of suffixes: true exactly when the name ends with at least one of them |
| ImageFiles.IsSupported | resize.py:22-23 | a name passes the test exactly when its lower-cased form ends with one of the six supported suffixes |
| ImageFiles.GetImageFiles | resize.py:21-23 | a name is kept exactly when it is in the listing and its lower-cased form ends with one of the six supported suffixes; the result is no longer than the listing |
| ImageFiles.GetImageFilesKeepsOrder | resize.py:23 | the kept names are a subsequence of the listing, in listing order |
| ImageFiles.GetImageFilesCount | resize.py:23 | a supported name is kept as many times as the listing holds it; an unsupported name is never kept |
| ImageFiles.GetImageFilesIdempotent | resize.py:23 | filtering an already filtered list changes nothing |
| ImageFiles.UpperCaseSuffixAccepted | resize.py:22-23 | a name with an upper-case supported suffix ("Photo.JPEG") is kept |
| ImageFiles.TextFileRefused | resize.py:22-23 | "notes.txt" is refused |
| ImageFiles.TruncatedSuffixRefused | resize.py:22-23 | "scan.tif" is refused: ".tif" is not ".tiff" |
| ImageFiles.TwoImagesAndAText | resize.py:21-23 | the listing ["a.png", "notes.txt", "B.JPG"] gives ["a.png", "B.JPG"] |
| Display.FitToScreen | resize.py:30-39 | the display size lies within the screen; when the width limits the fit the display width is the screen's, otherwise the display height is |
| Display.FloorOfQuotient | resize.py:38-39 | rounding a non-negative real quotient down equals integer division |
| Display.RatiosCompare | resize.py:34-36 | the width is the limiting dimension exactly when sw/ow <= sh/oh, so the cross-product test selects the `min` of the two factors |
| Display.FitToScreenMatchesScale | resize.py:34-39 | the integer fit equals floor(ow * scale) and floor(oh * scale), where scale = min(sw/ow, sh/oh) |
| Display.FitToScreenKeepsAspect | resize.py:34-39 | the display keeps the original's aspect ratio up to rounding down of the non-limiting dimension |
| Display.FitExamples | resize.py:34-39 | 1600x1200 fits an 800x600 screen at 800x600 and a 1920x1080 screen at 1440x1080 |
| CropSquare.InitialSquare | resize.py:60-61 | the first square sits at the origin with side min(w, h), lies inside the display, and touches its far edge in one axis |
| CropSquare.ClampCorner | resize.py:86-87 | the corner is the centred position p - size // 2 when that fits, 0 when it would be negative, and extent - size when it would overflow; it is never negative and, when the square fits, never overflows |
| CropSquare.Recentred | resize.py:85-97 | a click or drag gives a square with side `size` in both axes, inside the display whenever 0 <= size <= min(w, h) |
| CropSquare.RecentredAtOwnCentre | resize.py:85-97 | clicking at the centre of the square a click produced leaves it where it is |
| CropSquare.RecentredExample | resize.py:92-97 | a click at (400, 300) on an 800x600 display with a 600-pixel square gives (100, 0)-(700, 600) |
| CropSquare.Resized | resize.py:72-83 | the square gets side `size`; in each axis the near corner is kept when the far edge fits, otherwise the far edge is pinned to the display's edge and the near corner moves back |
| CropSquare.ResizedStaysInside | resize.py:72-83 | a slider value within [0, min(w, h)] keeps a square with non-negative corner inside the display |
| CropSquare.ResizedIdempotent | resize.py:72-83 | moving the slider twice to the same value gives the same square as moving it once |
| CropSquare.ResizedFixesFittingSquare | resize.py:72-83 | a square inside the display that already has the slider's side is not moved |
| OriginalCoords.ScaleCoord | resize.py:100-105 | a coordinate c >= 0 maps to floor(c * ow / w); negative coordinates map to non-positive values |
| OriginalCoords.MapCoord | resize.py:101-105 | one corner coordinate maps to itself times the width ratio, truncated toward zero |
| OriginalCoords.ToOriginal | resize.py:100-105 | every corner coordinate, x and y alike, maps to itself times the width ratio ow / w, truncated toward zero |
| OriginalCoords.ScaleCoordMatchesRatio | resize.py:101-105 | the integer map equals c * (ow / w) truncated toward zero, as `int()` does |
| OriginalCoords.ScaleCoordMonotone | resize.py:101-105 | the map preserves order |
| OriginalCoords.ScaleCoordEnds | resize.py:101-105 | 0 maps to 0 and the display width maps to the original width |
| OriginalCoords.ScaleCoordBounded | resize.py:101-105 | a coordinate in [0, w] maps into [0, ow] |
| OriginalCoords.ToOriginalOrdered | resize.py:99-106 | a square inside the display maps to a rectangle with ordered corners, no negative coordinate and x-range within the original's width |
| OriginalCoords.ToOriginalWithinHeightWhenWidthLimited | resize.py:34-39 | when the width limited the fit, the mapped y2 also stays within the original's height |
| OriginalCoords.ToOriginalCanLeaveHeight | resize.py:101-105 | when the height limited the fit, the width ratio can carry y2 past the original's height: a 3x2 image on a 100x1 screen maps the full square to height 3 |
| OriginalCoords.ToOriginalExample | resize.py:99-105 | (100, 50)-(300, 250) on an 800x600 display of 1600x1200 maps to (200, 100)-(600, 500) |
| OriginalCoords.ToOriginalFullHeightExample | resize.py:99-105 | (100, 0)-(700, 600) on the same display maps to (200, 0)-(1400, 1200) |
| Cropper.ImageCropper.constructor | resize.py:7-19 | the file list is the filtered listing and the cursor is 0; with no image file nothing is loaded or shown and the session does not quit; otherwise the first file is decoded, fitted and given the initial square; the invariant holds |
| Cropper.ImageCropper.LoadImage | resize.py:25-28 | the original is the decoded file under the cursor and the display is its fit to the screen |
| Cropper.ImageCropper.ScaleImageToFitScreen | resize.py:30-41 | the display size becomes the fit of the original to the screen |
| Cropper.ImageCropper.SetupUi | resize.py:60-61 | the crop size becomes min(w, h) and the square the initial square |
| Cropper.ImageCropper.UpdateCropSize | resize.py:72-83 | the crop size becomes the slider value and the square becomes the resized square; the display is unchanged and the invariant holds |
| Cropper.ImageCropper.MoveCropSquare | resize.py:85-90 | the square becomes the re-centred square for the pointer; crop size, images, cursor and saves are unchanged; the invariant holds |
| Cropper.ImageCropper.PositionCropSquare | resize.py:92-97 | the same as a drag: the re-centred square, everything else unchanged, the invariant kept |
| Cropper.ImageCropper.SaveAndNextImage | resize.py:99-120 | one save is appended, under the current file's name, of the square mapped to the original, at side 224; the cursor advances by one; the next image is loaded with its initial square when there is one, otherwise the session quits and the image state is unchanged; the invariant holds |
| Cropper.WrittenAreFilesBeforeCursor | resize.py:109-116 | the files written so far are exactly the files before the cursor, in list order |
| Cropper.QuitMeansAllWritten | resize.py:114-120 | once the session quits, every image file has been written exactly once, in list order |
| Cropper.TwoImageSession | resize.py:99-120 | in the folder holding "a.png", "notes.txt" and "B.JPG" (two 1600x1200 images and a text file, 800x600 screen), two confirmations save "a.png" and then "B.JPG", and the session has ended |
| Cropper.OpenTwoImageFolder | resize.py:7-19 | opening a folder with two 1600x1200 images and a text file on an 800x600 screen shows "a.png" at 800x600 with the square (0, 0)-(600, 600) |

## Left out

- Tk plumbing: the fullscreen window, canvas creation and placement, widget destroy and rebuild, the slider widget, event bindings and the main loop (`resize.py:44-58`, `resize.py:63-70`, `resize.py:122-131`). Each handler is modelled as the method it triggers.
- The image library: decoding is a constant function `decode` from file name to dimensions. Resampling, cropping and saving the 224x224 result are foreign calls; a save is recorded as an entry of `written` holding the name, the crop rectangle and the output side.
- Float rounding: the scale factor, the crop ratio and the slider's float value truncated by `int()` are computed exactly. An `int()` of a float that lands just below a whole number is not modelled.
- Lower-casing handles ASCII letters only; Unicode case mapping of file names is not modelled.
- Cropper.ImageCropper.constructor: requires every image file of the listing to fit the screen at 1x1 or more, because resampling to a zero dimension fails in the image library and that failure is not modelled.
- A file that the image library cannot decode (`Image.open` raising at `resize.py:27`) is outside the model: `decode` gives dimensions for every name.
- Cropper.ImageCropper.UpdateCropSize: requires 50 <= size <= min(w, h), the slider's range, because the method reads the size from the slider rather than taking it as an argument. This excludes displays with min(w, h) < 50, such as a 3000x40 panorama shown at 1920x25 on a 1920x1080 screen. There the slider is built with `from_=50` above `to=25` (`resize.py:63`), a value between 25 and 50 can reach the handler, and `resize.py:80-81` then sets y1 negative; that case is not modelled.
- Cropper.ImageCropper.SaveAndNextImage: no bound y2' <= oh is promised, because the y coordinates use the width ratio. The bound is proved only when the width limited the fit (`ToOriginalWithinHeightWhenWidthLimited`), and a counterexample is given for the other case (`ToOriginalCanLeaveHeight`).
- Filesystem and console output: `os.listdir` is the `listing` argument, in the order the operating system returns it. `os.path.join`, `os.makedirs` and the `print` calls are left out.
- Screen size: the screen size reported by the window system is the constant `screen`.
- The training and inference scripts (`vgg19.py`, `vgg16next.py`, `tebak.py`, `tebak_batch.py`) are not part of this model. They consist of calls into a machine-learning library on floating-point tensors.
