// The image cropper's session: the list of files, the cursor into it, the
// image being shown and the crop square drawn on it, and the files written so
// far. The window, the canvas and the image library are not part of the
// state: decoding is the `decode` oracle, a save is an entry of `written`.

module Cropper {
  import opened ImageFiles
  import opened Display
  import opened CropSquare
  import opened OriginalCoords

  /** One file written to the output folder: its name, the rectangle cut from the original, and the output side. */
  datatype Written = Written(name: string, box: Square, side: int)

  function Names(ws: seq<Written>): (names: seq<string>)
    ensures |names| == |ws|
    ensures forall i :: 0 <= i < |ws| ==> names[i] == ws[i].name
  {
    seq(|ws|, i requires 0 <= i < |ws| => ws[i].name)
  }

  class ImageCropper {
    /** The screen the window fills. */
    const screen: Size
    /** The dimensions the image library decodes each file of the input folder to. */
    const decode: string -> Size
    /** The image files of the input folder, in listing order. */
    const imageFiles: seq<string>

    var currentImageIndex: nat
    var originalImage: Dims
    var image: Dims
    var cropSize: int
    var cropSquare: Square
    /** The saves made so far, oldest first. */
    var written: seq<Written>
    /** The main loop has been told to stop. */
    var quit: bool

    /** An image is on screen: the cursor points at a file of the list. */
    predicate Showing()
      reads this
    {
      currentImageIndex < |imageFiles|
    }

    ghost predicate Valid()
      reads this
    {
      (forall f :: f in imageFiles ==> Displayable(decode(f), screen)) &&
      currentImageIndex <= |imageFiles| &&
      // each file before the cursor was written once, in order, at the output side
      |written| == currentImageIndex &&
      (forall i :: 0 <= i < |written| ==> written[i].name == imageFiles[i] && written[i].side == OutputSide) &&
      (quit <==> imageFiles != [] && currentImageIndex == |imageFiles|) &&
      // the image on screen is the file under the cursor, fitted to the screen,
      // and the crop square lies inside it
      (Showing() ==>
         originalImage == decode(imageFiles[currentImageIndex]) &&
         image == FitToScreen(originalImage, screen) &&
         0 <= cropSize <= MaxSide(image) &&
         HasSide(cropSquare, cropSize) && Inside(cropSquare, image))
    }

    /**
     * Starts a session on a directory listing. With no image file in it
     * nothing is loaded and no image is shown; the window stays open.
     */
    constructor (listing: seq<string>, screen: Size, decode: string -> Size)
      requires forall f :: f in GetImageFiles(listing) ==> Displayable(decode(f), screen)
      ensures Valid()
      ensures this.screen == screen && this.decode == decode
      ensures imageFiles == GetImageFiles(listing)
      ensures currentImageIndex == 0 && written == [] && !quit
      ensures Showing() <==> GetImageFiles(listing) != []
      ensures Showing() ==>
                originalImage == decode(imageFiles[0]) &&
                image == FitToScreen(originalImage, screen) &&
                cropSize == MaxSide(image) && cropSquare == InitialSquare(image)
    {
      this.screen := screen;
      this.decode := decode;
      imageFiles := GetImageFiles(listing);
      currentImageIndex := 0;
      originalImage, image := Dims(1, 1), Dims(0, 0);
      cropSize, cropSquare := 0, Square(0, 0, 0, 0);
      written, quit := [], false;
      new;
      if imageFiles == [] {
        return;
      }
      LoadImage();
      SetupUi();
    }

    /** Decodes the file under the cursor and fits it to the screen. */
    method LoadImage()
      requires Showing()
      modifies this`originalImage, this`image
      ensures originalImage == decode(imageFiles[currentImageIndex])
      ensures image == FitToScreen(originalImage, screen)
    {
      originalImage := decode(imageFiles[currentImageIndex]);
      ScaleImageToFitScreen();
    }

    /** The displayed size: the original scaled by the larger factor that keeps it on the screen. */
    method ScaleImageToFitScreen()
      requires originalImage.width >= 1 && originalImage.height >= 1
      modifies this`image
      ensures image == FitToScreen(originalImage, screen)
    {
      var scaleWidthFirst := screen.width * originalImage.height <= screen.height * originalImage.width;
      var newWidth, newHeight;
      if scaleWidthFirst {
        newWidth, newHeight := screen.width, (originalImage.height * screen.width) / originalImage.width;
      } else {
        newWidth, newHeight := (originalImage.width * screen.height) / originalImage.height, screen.height;
      }
      image := Dims(newWidth, newHeight);
    }

    /** Draws the crop square at the origin, as large as the displayed image allows. */
    method SetupUi()
      requires image.width >= 0 && image.height >= 0
      modifies this`cropSize, this`cropSquare
      ensures cropSize == MaxSide(image) && cropSquare == InitialSquare(image)
    {
      cropSize := Min(image.width, image.height);
      cropSquare := Square(0, 0, cropSize, cropSize);
    }

    /**
     * The slider moved to `size`: the square takes that side, keeping its
     * top-left corner unless its far edge would leave the image.
     */
    method UpdateCropSize(size: int)
      requires Valid() && Showing()
      requires 50 <= size <= MaxSide(image)
      modifies this`cropSize, this`cropSquare
      ensures Valid()
      ensures image == old(image)
      ensures cropSize == size
      ensures cropSquare == Resized(old(cropSquare), size, image)
    {
      cropSize := size;
      var x1, y1 := cropSquare.x1, cropSquare.y1;
      var x2, y2 := x1 + cropSize, y1 + cropSize;
      if x2 > image.width {
        x1, x2 := image.width - cropSize, image.width;
      }
      if y2 > image.height {
        y1, y2 := image.height - cropSize, image.height;
      }
      cropSquare := Square(x1, y1, x2, y2);
      ResizedStaysInside(old(cropSquare), size, image);
    }

    /** A drag to (px, py): the square is centred on the pointer as far as the image allows. */
    method MoveCropSquare(px: int, py: int)
      requires Valid() && Showing()
      modifies this`cropSquare
      ensures Valid()
      ensures currentImageIndex == old(currentImageIndex) && written == old(written) && quit == old(quit)
      ensures originalImage == old(originalImage) && image == old(image) && cropSize == old(cropSize)
      ensures cropSquare == Recentred(px, py, cropSize, image)
    {
      var x1 := Max(0, Min(px - cropSize / 2, image.width - cropSize));
      var y1 := Max(0, Min(py - cropSize / 2, image.height - cropSize));
      cropSquare := Square(x1, y1, x1 + cropSize, y1 + cropSize);
    }

    /** A click at (px, py): the same placement as a drag. */
    method PositionCropSquare(px: int, py: int)
      requires Valid() && Showing()
      modifies this`cropSquare
      ensures Valid()
      ensures currentImageIndex == old(currentImageIndex) && written == old(written) && quit == old(quit)
      ensures originalImage == old(originalImage) && image == old(image) && cropSize == old(cropSize)
      ensures cropSquare == Recentred(px, py, cropSize, image)
    {
      var x1 := Max(0, Min(px - cropSize / 2, image.width - cropSize));
      var y1 := Max(0, Min(py - cropSize / 2, image.height - cropSize));
      cropSquare := Square(x1, y1, x1 + cropSize, y1 + cropSize);
    }

    /**
     * Confirm: the square is carried back to the original by the width ratio
     * and the result saved under the current file's name; then the cursor
     * advances, and the next image is shown or, after the last, the session quits.
     */
    method SaveAndNextImage()
      requires Valid() && Showing()
      modifies this
      ensures Valid()
      ensures currentImageIndex == old(currentImageIndex) + 1
      ensures written == old(written) +
                [Written(imageFiles[old(currentImageIndex)],
                         ToOriginal(old(cropSquare), old(originalImage), old(image)),
                         OutputSide)]
      ensures quit <==> !Showing()
      ensures Showing() ==>
                originalImage == decode(imageFiles[currentImageIndex]) &&
                image == FitToScreen(originalImage, screen) &&
                cropSize == MaxSide(image) && cropSquare == InitialSquare(image)
      ensures !Showing() ==>
                originalImage == old(originalImage) && image == old(image) &&
                cropSize == old(cropSize) && cropSquare == old(cropSquare)
    {
      var box := ToOriginal(cropSquare, originalImage, image);
      written := written + [Written(imageFiles[currentImageIndex], box, OutputSide)];
      currentImageIndex := currentImageIndex + 1;
      if currentImageIndex < |imageFiles| {
        LoadImage();
        SetupUi();
      } else {
        quit := true;
      }
    }
  }

  /** The files written so far are the files before the cursor, in list order. */
  lemma {:induction false} WrittenAreFilesBeforeCursor(c: ImageCropper)
    requires c.Valid()
    ensures Names(c.written) == c.imageFiles[..c.currentImageIndex]
  {
  }

  /** Once the session quits, every image file has been written exactly once, in list order. */
  lemma {:induction false} QuitMeansAllWritten(c: ImageCropper)
    requires c.Valid() && c.quit
    ensures Names(c.written) == c.imageFiles
  {
    WrittenAreFilesBeforeCursor(c);
  }

  /** Opening a folder with two 1600x1200 images and a text file on an 800x600 screen shows the first image whole. */
  method OpenTwoImageFolder() returns (cropper: ImageCropper)
    ensures fresh(cropper) && cropper.Valid() && cropper.Showing()
    ensures cropper.imageFiles == ["a.png", "B.JPG"] && cropper.currentImageIndex == 0
    ensures cropper.originalImage == Dims(1600, 1200) && cropper.image == Dims(800, 600)
    ensures cropper.cropSize == 600 && cropper.cropSquare == Square(0, 0, 600, 600)
  {
    var photo := Dims(1600, 1200);
    var screen := Dims(800, 600);
    var decode: string -> Size := (f: string) => photo;
    assert FitToScreen(photo, screen) == Dims(800, 600);
    assert forall f :: decode(f) == photo;
    TwoImagesAndAText();
    cropper := new ImageCropper(["a.png", "notes.txt", "B.JPG"], screen, decode);
    assert cropper.originalImage == decode("a.png") == photo;
  }

  /**
   * A folder with two images and a text file: two confirmations write the two
   * images under their own names and end the session.
   */
  method TwoImageSession() returns (saved: seq<string>, ended: bool)
    ensures saved == ["a.png", "B.JPG"] && ended
  {
    var cropper := OpenTwoImageFolder();
    cropper.SaveAndNextImage();
    cropper.SaveAndNextImage();
    assert cropper.quit;
    QuitMeansAllWritten(cropper);
    saved, ended := Names(cropper.written), cropper.quit;
  }
}
