# Edge Annotation Tool — a verified Dafny model of the annotator core

The Edge Annotation Tool is a small Tk desktop program. It draws polygon
annotations over the images of a folder and saves each image's polygons
twice. One copy is a JSON shape list, which it reads back when the image is
reopened. The other is a normalized text file with one line per polygon:
the class id, the bounding-box centre and size, and every vertex, each over
the image width or height. Everything lives in the `EdgeAnnotator` class of
`app.py`. This project models the parts of that class that decide state and
file contents. The Dafny modules follow the parts of the program:

- `Geometry`: points and polygons in pixel space, the "click within 10 px of
  the first vertex" test, Python's `round()` (ties to even) and the bounding
  box.
- `Registry`: the class list read from a labels file (`str.strip()` and
  blank-line filtering), the 30-colour palette map, the selected class and
  the label → class-id lookup with its fallback to 0.
- `Codec`: the decoding loop of `load_image` and the encoding loop of
  `save_annotation`. It proves that a save followed by a load gives back the
  polygons with rounded vertices, and that a second save writes the same
  shapes.
- `Editor`: the polygon editor as pure transitions: a click, undo and reset.
- `Navigation`: the next/previous cursor and its clamp.
- `Annotator`: the class `EdgeAnnotator`, whose fields the methods update in
  place. Each method is proved against the pure functions above. The
  dialogs, the file reads and the image decoder become method parameters
  (the labels file's lines, a folder listing, the opened image's size, the
  parsed JSON). What a save would write is returned as a value.

Two behaviours of `app.py` are worth stating plainly:

- The text line's centre is the midpoint of the bounding box over the image
  size (app.py:388-389). For a polygon with y from 10 to 40 on an image
  50 px high, the y centre is ((10 + 40) / 2) / 50 = 0.5.
- `change_class_color` stores the chosen colour under the label it is given,
  even a label not in the class list (app.py:205).

One behaviour is modelled both ways. `load_labels` empties the class list
when the labels file holds no labels (see "## Findings"). `Registry.LoadAsWritten`
models that code as written. The class `EdgeAnnotator` runs the corrected
`Registry.Load`, which keeps the previous class list on that error.

## Model

| member | source | states |
|---|---|---|
| `Geometry.Round` | app.py:379 | the result is within 0.5 of x, and an exact tie goes to the even integer (Python 3 rounding) |
| `Geometry.RoundWhole` | app.py:379 | rounding a whole number returns it unchanged |
| `Geometry.MinIsLeast` | app.py:385 | `min` of a non-empty list is one of its elements and no element is smaller |
| `Geometry.MaxIsGreatest` | app.py:385 | `max` of a non-empty list is one of its elements and no element is larger |
| `Geometry.BoundingBoxTight` | app.py:383-386 | every vertex lies inside the box; each of the four sides is attained by some vertex |
| `Registry.TrimStart` | app.py:161 | the result of removing leading whitespace is no longer than the input |
| `Registry.TrimStartSpec` | app.py:161 | exactly the leading run of whitespace is removed: the rest is a suffix that does not start with whitespace |
| `Registry.TrimEnd` | app.py:161 | the result of removing trailing whitespace is no longer than the input |
| `Registry.TrimEndSpec` | app.py:161 | exactly the trailing run of whitespace is removed: the rest is a prefix that does not end with whitespace |
| `Registry.Strip` | app.py:161 | a non-empty stripped line neither starts nor ends with whitespace |
| `Registry.StripBlank` | app.py:161 | a line strips to the empty string iff every character is whitespace |
| `Registry.ParseLabels` | app.py:161 | no more labels than lines |
| `Registry.ParseLabelsAreStripped` | app.py:161 | every label is non-empty with no surrounding whitespace |
| `Registry.ParseLabelsKeepsLine` | app.py:161 | every non-blank line contributes its stripped text |
| `Registry.ParseLabelsSingle` | app.py:161 | one line gives its stripped text, or nothing when it is blank |
| `Registry.ParseLabelsAppend` | app.py:161 | parsing distributes over joining line lists, so the labels are the non-blank lines in file order |
| `Registry.ColorMap` | app.py:175 | there are no more colour entries than labels |
| `Registry.ColorMapKeys` | app.py:175 | exactly the listed labels get a colour |
| `Registry.ColorMapAt` | app.py:175 | a label not repeated later in the list has palette colour i mod 30 |
| `Registry.DistinctLabelColors` | app.py:168-175 | with distinct labels, the label at position i has palette colour i mod 30 |
| `Registry.ClassIdSpec` | app.py:398-402 | a known label's id is its first index in the class list; an unknown label's id is 0 |
| `Registry.DefaultLabel` | app.py:274 | a loaded shape without a label gets the first class, or "0" when no classes are loaded |
| `Registry.CommitLabel` | app.py:300 | a polygon closed by a click gets the selected class, or "0" when no classes are loaded |
| `Registry.LoadAsWritten` | app.py:155-165 | as written: a labels file with no labels empties the class list but keeps the old colours and selection |
| `Registry.BlankFileWipesClassList` | app.py:160-165 | as written, a file holding one blank line empties a loaded class list |
| `Registry.Load` | app.py:155-181 | cancel and empty outcomes leave the registry unchanged; a load lists exactly the parsed labels, colours them and selects the first; validity is kept |
| `Registry.Select` | app.py:209-212 | a listbox selection picks the label at that index; no selection, or an index past the list, changes nothing (where app.py:212 raises IndexError); the labels and colours never change |
| `Registry.SetColor` | app.py:202-207 | a chosen colour replaces that label's colour and adds no key but that label; no other colour changes; a cancelled dialog changes nothing |
| `Codec.DecodePoint` | app.py:278-279 | a point entry is kept iff it is a list or tuple with at least two entries; it gives `float()` of the first two |
| `Codec.DecodePoints` | app.py:276-279 | at most one point per entry; the result is empty iff every entry is malformed |
| `Codec.DecodePointsSingle` | app.py:277-279 | one entry gives its point when it is a list or tuple with at least two entries, else nothing |
| `Codec.DecodePointsAppend` | app.py:276-279 | decoding distributes over joining entry lists, so the result is exactly the well-formed entries' points, in order |
| `Codec.DecodeShape` | app.py:272-281 | a shape is kept iff its type is "polygon" and it has a well-formed point; a missing label becomes the fallback |
| `Codec.DecodeShapes` | app.py:271-281 | no more polygons than shapes |
| `Codec.DecodeShapesSingle` | app.py:272-281 | one shape gives its polygon when it is kept, else nothing |
| `Codec.DecodeShapesAppend` | app.py:271-281 | decoding distributes over joining shape lists, so a mixed file loads exactly its kept shapes, in file order |
| `Codec.DecodeShapesSound` | app.py:271-281 | every loaded polygon has a vertex and is the decoding of some shape in the file |
| `Codec.DecodeShapesComplete` | app.py:271-281 | when every shape is well formed, all are loaded, one per shape, in file order |
| `Codec.DecodeDocument` | app.py:271 | every polygon loaded from a document has a vertex |
| `Codec.LoadShapes` | app.py:271-281 | the appending loop computes exactly `DecodeShapes` |
| `Codec.RoundPoints` | app.py:379 | one integer pair per vertex: that vertex rounded |
| `Codec.Normalize` | app.py:393-396 | two numbers per vertex |
| `Codec.NormalizeAt` | app.py:393-396 | numbers 2i and 2i+1 are vertex i's x over the width and y over the height |
| `Codec.LineOf` | app.py:383-405 | the class id is the label's id, and the coordinates are the normalized vertices |
| `Codec.Shapes` | app.py:375-381 | one shape record per polygon |
| `Codec.Lines` | app.py:375-406 | one text line per polygon |
| `Codec.Encode` | app.py:363-406 | version "1.0", the image name and size; per polygon its label, type "polygon", vertex count, class id and 2·n coordinates |
| `Codec.BuildAnnotation` | app.py:375-406 | the accumulation loop computes exactly `Encode` |
| `Codec.PolygonLine` | app.py:383-405 | the loop body for one polygon computes exactly its text line |
| `Codec.DecodeAsRaw` | app.py:276-279 | every saved integer point is read back whole |
| `Codec.SaveLoadRoundTrip` | app.py:375-381 | loading what a save wrote gives back the same polygons, in order, with their labels and rounded vertices |
| `Codec.ResaveStable` | app.py:379 | saving the reloaded polygons writes the same shape records as before |
| `Codec.LineBox` | app.py:383-391 | width and height are non-negative; centre ∓ half the size give the box's least and greatest coordinates over the image size |
| `Codec.CentreAndSpan` | app.py:388-391 | on one axis, centre and span of [lo, hi] over the extent give back lo and hi over the extent |
| `Codec.LineInUnitSquare` | app.py:383-396 | a polygon inside the image has every text-file number between 0 and 1 |
| `Editor.AddPoint` | app.py:290-308 | a closing click commits the current polygon (at least 3 vertices) under the name and empties it; any other click appends the vertex; validity is kept |
| `Editor.Undo` | app.py:310-318 | drops the last vertex, otherwise the last committed polygon, otherwise nothing |
| `Editor.Reset` | app.py:320-325 | a confirmed reset clears both; a declined one changes nothing |
| `Editor.UndoAfterAppend` | app.py:305-318 | undo takes back a click that added a vertex |
| `Editor.UndoAfterClose` | app.py:298-318 | undo right after a closing click removes the whole new polygon |
| `Editor.ClicksAppend` | app.py:290-308 | clicks that never close lay down exactly those vertices and commit nothing |
| `Editor.NoEarlyClosePrefix` | app.py:295-298 | a prefix of a click sequence without an early close has none either |
| `Editor.DrawPolygon` | app.py:290-308 | n ≥ 3 clicks with no early close, then a click near the first vertex, commit exactly those n vertices as one polygon |
| `Editor.UndoEverything` | app.py:310-318 | one undo per vertex and per polygon empties the editor; further undos change nothing |
| `Navigation.Clamp` | app.py:438 | the result is a valid index whenever there are images, and a valid index is left unchanged |
| `Navigation.Step` | app.py:441-455 | no images gives no move; forward moves iff not at the last image, backward iff not at the first; a move lands on a valid index |
| `Navigation.StepIsAdjacent` | app.py:436-438 | from a valid index a move goes exactly one image; the clamp never changes the target |
| `Navigation.StepBack` | app.py:441-455 | a move in one direction is undone by a move in the other |
| `Navigation.WalkForward` | app.py:441-447 | k presses of next from index i reach min(i + k, count − 1) |
| `Navigation.WalkBackward` | app.py:449-455 | k presses of previous from index i reach max(i − k, 0) |
| `Annotator.Lower` | app.py:221 | ASCII upper-case letters are lowered; other characters stay |
| `Annotator.ImageFiles` | app.py:221 | a name is kept iff it is in the listing and ends in .jpg, .png or .jpeg ignoring case |
| `Annotator.ImageFilesAppend` | app.py:221 | the filter keeps listing order |
| `Annotator.ImageNameExamples` | app.py:221 | "cat.JPG", "dog.Jpeg" and ".png" are images; "notes.txt", "jpg" and "photo.gif" are not |
| `Annotator.ImagePolygons` | app.py:266-281 | an image that fails to open or has no annotation file starts with no polygons; loaded polygons all have vertices |
| `Annotator.EdgeAnnotator.constructor` | app.py:27-41 | no classes, no images, no image, no polygons; the invariant holds |
| `Annotator.EdgeAnnotator.LoadLabels` | app.py:155-184 | the registry becomes the corrected `Registry.Load` of the old one, so a file without labels keeps the previous class list where app.py:161 empties it; nothing else changes |
| `Annotator.EdgeAnnotator.ChangeClassColor` | app.py:202-207 | the registry becomes `Registry.SetColor` of the old one; nothing else changes |
| `Annotator.EdgeAnnotator.SelectClass` | app.py:209-212 | the registry becomes `Registry.Select` of the old one; nothing else changes |
| `Annotator.EdgeAnnotator.OpenFolder` | app.py:214-232 | cancel changes nothing; a folder without images only empties the image list; otherwise the cursor is on the first image and it is shown |
| `Annotator.EdgeAnnotator.LoadImage` | app.py:234-285 | with images, the polygon being drawn is cleared and the committed polygons are those decoded from the annotation file; a failed open keeps the old image |
| `Annotator.EdgeAnnotator.AddPoint` | app.py:290-308 | once an image has been shown, the editor becomes `Editor.AddPoint` with the label `Registry.CommitLabel`; before that a click does nothing |
| `Annotator.EdgeAnnotator.UndoPoint` | app.py:310-318 | the editor becomes `Editor.Undo` of the old one; nothing else changes |
| `Annotator.EdgeAnnotator.ResetPoints` | app.py:320-325 | the editor becomes `Editor.Reset` of the old one; nothing else changes |
| `Annotator.EdgeAnnotator.SaveOutcome` | app.py:349-406 | something is written iff an image is open and something is drawn; what is written names the current image and its size, with one record and one line per committed polygon |
| `Annotator.EdgeAnnotator.SaveAnnotation` | app.py:349-424 | writes `SaveOutcome`, and what it writes loads back as the committed polygons with rounded vertices |
| `Annotator.EdgeAnnotator.SaveCurrentAndProceed` | app.py:426-439 | saves the current image, moves the cursor to the clamped index and shows that image |
| `Annotator.EdgeAnnotator.NextImage` | app.py:441-447 | the move is `Navigation.Step` forward; a move saves first, then shows the next image; otherwise nothing changes |
| `Annotator.EdgeAnnotator.PrevImage` | app.py:449-455 | the move is `Navigation.Step` backward; a move saves first, then shows the previous image; otherwise nothing changes |
| `Annotator.EdgeAnnotator.OnClose` | app.py:457-465 | saves only when there are committed polygons and the user agrees |

## Left out

- The Tk user interface is not modelled: windows, canvas drawing, the legend, scrolling, message boxes and the window title. `redraw_canvas` and `update_legend` only paint, except that `redraw_canvas` raises on a label that cannot be a dictionary key (see the JSON line below).
- Dialogs become parameters: the labels file's lines, the folder listing, the colour chooser's answer, the listbox selection and the yes/no confirmations.
- File input and output is not modelled. A save returns the JSON object and the text lines as values, and a load receives the parsed JSON. Failed writes and their error boxes are not modelled.
- `Annotator.EdgeAnnotator.OpenFolder` takes the directory listing already sorted. `files.sort()` and `os.listdir` are not modelled, and image paths are kept as file names without the folder path.
- `Annotator.Lower` lowers ASCII letters only. Python's `str.lower()` also maps other Unicode letters, which this model does not.
- Image decoding is reduced to the decoded image's size. A size of zero is not modelled: it would make the division in the text line fail.
- The JSON input is abstracted: a point entry that is a list or tuple is `Coords` of its entries as `float()` reads them (so `["3", "4"]` is (3.0, 4.0)); app.py:279 reads only the first two, so later entries may be anything and stand for any real; any other value is `NotAList`. A shape's label is a string or absent. The decoder's exceptions are not modelled. These include a shape that is not an object and a coordinate that `float()` rejects. Polygons appended before such an exception are not modelled either. A label that is present but not a string (null, a number) is kept as that value by app.py:274 and is outside the model, which has `className: Option<string>`. A list or object label raises only in `redraw_canvas` (app.py:335, called at app.py:283) after the loop, so every polygon stays loaded.
- Coordinates are exact reals, not binary floating point. `Codec.Fraction.Value` is the exact quotient, and the `:.6f` formatting of the text file is not modelled.
- The closing test compares squared distance with 100 instead of calling `math.hypot`. For exact reals the two agree.
- `Registry.Select` leaves the registry unchanged for an index past the class list, where app.py:212 raises IndexError inside the Tk callback. That index can occur only after the as-written blank-labels load, when the listbox still shows more labels than `class_list` holds; the exception itself is not modelled.
- Exceptions caught by `_save_current_and_proceed` and `on_close` are not modelled, and neither is the final `root.destroy()`.
- `show_shortcuts`, `build_ui` and the keyboard bindings only wire the UI to the modelled operations.

## Findings

| source | as written | input that shows it | evidently intended | confidence | as-written member | corrected member |
|---|---|---|---|---|---|---|
| app.py:160-165 | `class_list` is assigned the parsed labels before the emptiness check, so an empty result replaces a loaded class list; the colours and the selected class stay | a loaded registry with class "cat", then a labels file holding the single line `" \n"` (see `Registry.BlankFileWipesClassList`) | the "Labels file is empty" error returns and leaves the previous registry in place | not executed | `Registry.LoadAsWritten` | `Registry.Load` |
