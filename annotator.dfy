/**
 * The `EdgeAnnotator` window state (app.py:8-474) with its dialogs, file
 * reads and image decoding turned into parameters: the labels file's lines,
 * the folder listing, the decoded image's size and the parsed annotation
 * file arrive as arguments, and what a save would write is returned.
 */
module Annotator {
  import opened Common
  import opened Geometry
  import Registry
  import Editor
  import Navigation
  import Codec

  /** ASCII lower case. */
  function Lower(c: char): (r: char)
    ensures 'A' <= c <= 'Z' ==> r as int == c as int + 32
    ensures !('A' <= c <= 'Z') ==> r == c
  {
    if 'A' <= c <= 'Z' then (c as int + 32) as char else c
  }

  /** `name.lower().endswith(suffix)` for a lower-case `suffix`. */
  predicate EndsWithLower(name: string, suffix: string) {
    |suffix| <= |name| && forall i :: 0 <= i < |suffix| ==> Lower(name[|name| - |suffix| + i]) == suffix[i]
  }

  /** A file `load_folder` takes for an image: a .jpg, .png or .jpeg name in any case (app.py:221). */
  predicate IsImageName(name: string) {
    EndsWithLower(name, ".jpg") || EndsWithLower(name, ".png") || EndsWithLower(name, ".jpeg")
  }

  /** The image files of a folder listing, in listing order. */
  function ImageFiles(listing: seq<string>): (r: seq<string>)
    ensures |r| <= |listing|
    ensures forall f :: f in r <==> f in listing && IsImageName(f)
  {
    if listing == [] then []
    else
      var rest := ImageFiles(listing[1..]);
      assert forall f :: f in listing <==> f == listing[0] || f in listing[1..];
      if IsImageName(listing[0]) then [listing[0]] + rest else rest
  }

  /** Filtering keeps the listing's order: the images of two listings joined are the images of each, joined. */
  lemma {:induction false} ImageFilesAppend(a: seq<string>, b: seq<string>)
    ensures ImageFiles(a + b) == ImageFiles(a) + ImageFiles(b)
  {
    if a == [] {
      assert a + b == b;
    } else {
      assert (a + b)[0] == a[0];
      assert (a + b)[1..] == a[1..] + b;
      ImageFilesAppend(a[1..], b);
    }
  }

  /** The extension test ignores case and needs the dot. */
  lemma ImageNameExamples()
    ensures IsImageName("cat.JPG") && IsImageName("dog.Jpeg") && IsImageName(".png")
    ensures !IsImageName("notes.txt") && !IsImageName("jpg") && !IsImageName("photo.gif")
  {
    var txt, gif := "notes.txt", "photo.gif";
    assert Lower(txt[|txt| - 1]) == 't' && Lower(gif[|gif| - 1]) == 'f';
    assert ".jpg"[3] == 'g' && ".png"[3] == 'g' && ".jpeg"[4] == 'g';
  }

  /**
   * The polygons an image starts with after `load_image`: none when the
   * image cannot be opened or has no annotation file, else the decoded
   * shapes with the first class as the default label.
   */
  function ImagePolygons(decoded: Option<Codec.Size>, stored: Option<Codec.RawDocument>, labels: seq<string>)
    : (r: seq<Polygon>)
    ensures forall q :: q in r ==> q.points != []
    ensures decoded.None? || stored.None? ==> r == []
  {
    if decoded.Some? && stored.Some? then Codec.DecodeDocument(stored.value, Registry.DefaultLabel(labels)) else []
  }

  datatype FolderStatus = FolderCancelled | NoImagesFound | FolderOpened

  class EdgeAnnotator {
    var classList: seq<string>
    var classColors: map<string, string>
    var selected: string
    /** File names of the folder's images; the folder path itself is not modelled. */
    var imagePaths: seq<string>
    var currentIndex: nat
    /** `self.image`, reduced to its pixel size; None until an image opens. */
    var imageSize: Option<Codec.Size>
    /** Whether `load_image` has bound the click handler to the canvas. */
    var canvasBound: bool
    /** Whether `annotations_dir` is set. */
    var annotationsDir: bool
    var currentPolygon: seq<Point>
    var allPolygons: seq<Polygon>

    function Classes(): Registry.Classes
      reads this
    {
      Registry.Classes(classList, classColors, selected)
    }

    function Drawing(): Editor.Editor
      reads this
    {
      Editor.Editor(currentPolygon, allPolygons)
    }

    /**
     * The selected class is a listed class, every committed polygon has a
     * vertex, and an open folder has its cursor on one of its images and its
     * annotations directory set.
     */
    ghost predicate Valid()
      reads this
    {
      && Registry.Valid(Classes())
      && Editor.Valid(Drawing())
      && (imagePaths != [] ==> currentIndex < |imagePaths| && annotationsDir)
    }

    /** The state `load_image` leaves once the image at the cursor is shown. */
    ghost predicate Shows(decoded: Option<Codec.Size>, stored: Option<Codec.RawDocument>,
                          oldSize: Option<Codec.Size>, oldBound: bool)
      reads this
    {
      && currentPolygon == []
      && allPolygons == ImagePolygons(decoded, stored, classList)
      && imageSize == (if decoded.Some? then decoded else oldSize)
      && canvasBound == (oldBound || decoded.Some?)
    }

    constructor()
      ensures Valid()
      ensures classList == [] && classColors == map[] && selected == ""
      ensures imagePaths == [] && currentIndex == 0 && imageSize.None?
      ensures !canvasBound && !annotationsDir && currentPolygon == [] && allPolygons == []
    {
      classList := [];
      classColors := map[];
      selected := "";
      imagePaths := [];
      currentIndex := 0;
      imageSize := None;
      canvasBound := false;
      annotationsDir := false;
      currentPolygon := [];
      allPolygons := [];
    }

    /**
     * `load_labels`, run as the corrected `Registry.Load`: a labels file
     * without labels leaves the registry as it was, where the code as written
     * (`Registry.LoadAsWritten`) empties the class list.
     */
    method LoadLabels(file: Option<seq<string>>) returns (status: Registry.LoadStatus)
      requires Valid()
      modifies this
      ensures Valid()
      ensures (Classes(), status) == Registry.Load(old(Classes()), file)
      ensures imagePaths == old(imagePaths) && currentIndex == old(currentIndex) && imageSize == old(imageSize)
      ensures canvasBound == old(canvasBound) && annotationsDir == old(annotationsDir) && Drawing() == old(Drawing())
    {
      if file.None? {
        return Registry.Cancelled;
      }
      var labels := Registry.ParseLabels(file.value);
      if labels == [] {
        assert Registry.Load(Classes(), file) == (Classes(), Registry.EmptyLabels);
        return Registry.EmptyLabels;
      }
      classList := labels;
      classColors := Registry.ColorMap(labels);
      selected := labels[0];
      status := Registry.Loaded;
      assert Registry.Load(old(Classes()), file) == (Classes(), status);
    }

    /** `change_class_color` with the colour dialog's answer. */
    method ChangeClassColor(name: string, chosen: Option<string>)
      requires Valid()
      modifies this
      ensures Valid()
      ensures Classes() == Registry.SetColor(old(Classes()), name, chosen)
      ensures imagePaths == old(imagePaths) && currentIndex == old(currentIndex) && imageSize == old(imageSize)
      ensures canvasBound == old(canvasBound) && annotationsDir == old(annotationsDir) && Drawing() == old(Drawing())
    {
      if chosen.Some? && chosen.value != [] {
        classColors := classColors[name := chosen.value];
      }
    }

    /** `select_class` with the listbox's first selected index, if any. */
    method SelectClass(selection: Option<nat>)
      requires Valid()
      modifies this
      ensures Valid()
      ensures Classes() == Registry.Select(old(Classes()), selection)
      ensures imagePaths == old(imagePaths) && currentIndex == old(currentIndex) && imageSize == old(imageSize)
      ensures canvasBound == old(canvasBound) && annotationsDir == old(annotationsDir) && Drawing() == old(Drawing())
    {
      if selection.Some? && selection.value < |classList| {
        selected := classList[selection.value];
      }
    }

    /**
     * `load_folder` given the folder's sorted listing (None when the dialog
     * is cancelled) and what `load_image` finds for its first image.
     */
    method OpenFolder(listing: Option<seq<string>>, decoded: Option<Codec.Size>, stored: Option<Codec.RawDocument>)
      returns (status: FolderStatus)
      requires Valid()
      modifies this
      ensures Valid()
      ensures Classes() == old(Classes())
      ensures status == FolderCancelled <==> listing.None?
      ensures status == NoImagesFound <==> listing.Some? && ImageFiles(listing.value) == []
      ensures listing.Some? ==> imagePaths == ImageFiles(listing.value)
      ensures status != FolderOpened ==>
        currentIndex == old(currentIndex) && imageSize == old(imageSize) && canvasBound == old(canvasBound)
        && annotationsDir == old(annotationsDir) && Drawing() == old(Drawing())
      ensures status == FolderCancelled ==> imagePaths == old(imagePaths)
      ensures status == FolderOpened ==>
        currentIndex == 0 && annotationsDir && Shows(decoded, stored, old(imageSize), old(canvasBound))
    {
      if listing.None? {
        return FolderCancelled;
      }
      imagePaths := ImageFiles(listing.value);
      if imagePaths == [] {
        return NoImagesFound;
      }
      currentIndex := 0;
      annotationsDir := true;
      LoadImage(decoded, stored);
      status := FolderOpened;
    }

    /**
     * `load_image` given the decoded image's size (None when it cannot be
     * decoded) and the parsed annotation file (None when there is none).
     */
    method LoadImage(decoded: Option<Codec.Size>, stored: Option<Codec.RawDocument>)
      requires Valid()
      modifies this
      ensures Valid()
      ensures Classes() == old(Classes()) && imagePaths == old(imagePaths) && currentIndex == old(currentIndex)
      ensures annotationsDir == old(annotationsDir)
      ensures imagePaths == [] ==>
        imageSize == old(imageSize) && canvasBound == old(canvasBound) && Drawing() == old(Drawing())
      ensures imagePaths != [] ==> Shows(decoded, stored, old(imageSize), old(canvasBound))
    {
      if imagePaths == [] {
        return;
      }
      currentPolygon := [];
      allPolygons := [];
      if decoded.None? {
        return;
      }
      imageSize := decoded;
      canvasBound := true;
      if stored.Some? {
        var loaded := Codec.LoadShapes(stored.value.shapes.GetOr([]), Registry.DefaultLabel(classList));
        allPolygons := allPolygons + loaded;
        assert allPolygons == loaded;
        Codec.DecodeShapesSound(stored.value.shapes.GetOr([]), Registry.DefaultLabel(classList));
      }
    }

    /** `add_point`: a canvas click, heard only once an image has been shown. */
    method AddPoint(p: Point)
      requires Valid()
      modifies this
      ensures Valid()
      ensures canvasBound ==> Drawing() == Editor.AddPoint(old(Drawing()), p, Registry.CommitLabel(classList, selected))
      ensures !canvasBound ==> Drawing() == old(Drawing())
      ensures Classes() == old(Classes()) && imagePaths == old(imagePaths) && currentIndex == old(currentIndex)
      ensures imageSize == old(imageSize) && canvasBound == old(canvasBound) && annotationsDir == old(annotationsDir)
    {
      if !canvasBound {
        return;
      }
      if currentPolygon != [] {
        var start := currentPolygon[0];
        if Near(p, start) && |currentPolygon| >= 3 {
          var name := if classList != [] then selected else "0";
          allPolygons := allPolygons + [Polygon(name, currentPolygon)];
          currentPolygon := [];
          return;
        }
      }
      currentPolygon := currentPolygon + [p];
    }

    /** `undo_point` */
    method UndoPoint()
      requires Valid()
      modifies this
      ensures Valid()
      ensures Drawing() == Editor.Undo(old(Drawing()))
      ensures Classes() == old(Classes()) && imagePaths == old(imagePaths) && currentIndex == old(currentIndex)
      ensures imageSize == old(imageSize) && canvasBound == old(canvasBound) && annotationsDir == old(annotationsDir)
    {
      if currentPolygon != [] {
        currentPolygon := currentPolygon[..|currentPolygon| - 1];
      } else if allPolygons != [] {
        allPolygons := allPolygons[..|allPolygons| - 1];
      }
    }

    /** `reset_points` with the confirmation dialog's answer. */
    method ResetPoints(confirmed: bool)
      requires Valid()
      modifies this
      ensures Valid()
      ensures Drawing() == Editor.Reset(old(Drawing()), confirmed)
      ensures Classes() == old(Classes()) && imagePaths == old(imagePaths) && currentIndex == old(currentIndex)
      ensures imageSize == old(imageSize) && canvasBound == old(canvasBound) && annotationsDir == old(annotationsDir)
    {
      if confirmed {
        currentPolygon := [];
        allPolygons := [];
      }
    }

    /**
     * What `save_annotation` writes: nothing without an open image or with
     * nothing drawn, else the committed polygons (never the one being drawn)
     * under the current image's name.
     */
    function SaveOutcome(): (r: Option<Codec.Output>)
      requires Valid()
      reads this
      ensures r.Some? <==> imagePaths != [] && imageSize.Some? && (allPolygons != [] || currentPolygon != [])
      ensures r.Some? ==>
        r.value.json.imagePath == imagePaths[currentIndex]
        && r.value.json.imageWidth == imageSize.value.width && r.value.json.imageHeight == imageSize.value.height
        && |r.value.json.shapes| == |allPolygons| && |r.value.txt| == |allPolygons|
    {
      if imagePaths == [] || imageSize.None? then None
      else if allPolygons == [] && currentPolygon == [] then None
      else Some(Codec.Encode(allPolygons, classList, imageSize.value, imagePaths[currentIndex]))
    }

    /**
     * `save_annotation`. Whatever it writes loads back, by `load_image`, as
     * the committed polygons with their labels and rounded vertices.
     */
    method SaveAnnotation() returns (written: Option<Codec.Output>)
      requires Valid()
      ensures written == SaveOutcome()
      ensures written.Some? ==>
        Codec.DecodeDocument(Codec.ReloadDocument(written.value.json), Registry.DefaultLabel(classList))
        == Codec.RoundedAll(allPolygons)
    {
      if imagePaths == [] || imageSize.None? {
        return None;
      }
      if allPolygons == [] && currentPolygon == [] {
        return None;
      }
      var out := Codec.BuildAnnotation(allPolygons, classList, imageSize.value, imagePaths[currentIndex]);
      Codec.SaveLoadRoundTrip(allPolygons, classList, imageSize.value, imagePaths[currentIndex],
                              Registry.DefaultLabel(classList));
      written := Some(out);
    }

    /** `_save_current_and_proceed`: save the image, move the cursor to the clamped index, show that image. */
    method SaveCurrentAndProceed(newIndex: int, decoded: Option<Codec.Size>, stored: Option<Codec.RawDocument>)
      returns (written: Option<Codec.Output>)
      requires Valid() && imagePaths != []
      modifies this
      ensures Valid()
      ensures written == old(SaveOutcome())
      ensures currentIndex == Navigation.Clamp(newIndex, |imagePaths|)
      ensures Classes() == old(Classes()) && imagePaths == old(imagePaths) && annotationsDir == old(annotationsDir)
      ensures Shows(decoded, stored, old(imageSize), old(canvasBound))
    {
      written := None;
      if annotationsDir {
        written := SaveAnnotation();
      }
      currentIndex := Navigation.Clamp(newIndex, |imagePaths|);
      LoadImage(decoded, stored);
    }

    /** `next_image`, with what `load_image` finds for the next image. */
    method NextImage(decoded: Option<Codec.Size>, stored: Option<Codec.RawDocument>)
      returns (move: Navigation.Move, written: Option<Codec.Output>)
      requires Valid()
      modifies this
      ensures Valid()
      ensures move == Navigation.Step(|old(imagePaths)|, old(currentIndex), Navigation.Forward)
      ensures move.MovedTo? ==>
        written == old(SaveOutcome()) && currentIndex == move.index
        && Classes() == old(Classes()) && imagePaths == old(imagePaths) && annotationsDir == old(annotationsDir)
        && Shows(decoded, stored, old(imageSize), old(canvasBound))
      ensures !move.MovedTo? ==> written.None? && unchanged(this)
    {
      if imagePaths == [] {
        return Navigation.NoImages, None;
      }
      if currentIndex < |imagePaths| - 1 {
        written := SaveCurrentAndProceed(currentIndex + 1, decoded, stored);
        move := Navigation.MovedTo(currentIndex);
      } else {
        move, written := Navigation.AtBoundary, None;
      }
    }

    /** `prev_image`, with what `load_image` finds for the previous image. */
    method PrevImage(decoded: Option<Codec.Size>, stored: Option<Codec.RawDocument>)
      returns (move: Navigation.Move, written: Option<Codec.Output>)
      requires Valid()
      modifies this
      ensures Valid()
      ensures move == Navigation.Step(|old(imagePaths)|, old(currentIndex), Navigation.Backward)
      ensures move.MovedTo? ==>
        written == old(SaveOutcome()) && currentIndex == move.index
        && Classes() == old(Classes()) && imagePaths == old(imagePaths) && annotationsDir == old(annotationsDir)
        && Shows(decoded, stored, old(imageSize), old(canvasBound))
      ensures !move.MovedTo? ==> written.None? && unchanged(this)
    {
      if imagePaths == [] {
        return Navigation.NoImages, None;
      }
      if currentIndex > 0 {
        written := SaveCurrentAndProceed(currentIndex - 1, decoded, stored);
        move := Navigation.MovedTo(currentIndex);
      } else {
        move, written := Navigation.AtBoundary, None;
      }
    }

    /** `on_close`: with committed polygons the user is asked, and a yes saves before the window closes. */
    method OnClose(confirmed: bool) returns (written: Option<Codec.Output>)
      requires Valid()
      ensures written.Some? ==> allPolygons != [] && confirmed && written == SaveOutcome()
      ensures allPolygons != [] && confirmed && imagePaths != [] && imageSize.Some? ==> written.Some?
      ensures allPolygons == [] || !confirmed ==> written.None?
    {
      written := None;
      if allPolygons != [] && confirmed {
        written := SaveAnnotation();
      }
    }
  }
}
