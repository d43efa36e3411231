/**
 * The class registry of the annotator: the label list read from a text
 * file, the label colour map, the selected class and the label-to-index
 * lookup written into the normalized text format (app.py:155-212, 399-402).
 */
module Registry {
  import opened Common

  /** The characters Python's `str.strip()` removes (those for which `str.isspace()` holds). */
  predicate IsSpace(c: char) {
    ('\t' <= c <= '\r') || ('\U{1C}' <= c <= ' ') || c == '\U{85}' || c == '\U{A0}'
    || c == '\U{1680}' || ('\U{2000}' <= c <= '\U{200A}') || c == '\U{2028}' || c == '\U{2029}'
    || c == '\U{202F}' || c == '\U{205F}' || c == '\U{3000}'
  }

  /** A non-empty string with no whitespace at either end: what a stripped, non-blank line is. */
  predicate IsLabel(s: string) {
    s != [] && !IsSpace(s[0]) && !IsSpace(s[|s| - 1])
  }

  /** `s` without its leading whitespace. */
  function TrimStart(s: string): (r: string)
    ensures |r| <= |s|
  {
    if |s| > 0 && IsSpace(s[0]) then TrimStart(s[1..]) else s
  }

  /** Trimming the front removes exactly the leading run of whitespace. */
  lemma {:induction false} TrimStartSpec(s: string)
    ensures TrimStart(s) == s[|s| - |TrimStart(s)|..]
    ensures TrimStart(s) == [] || !IsSpace(TrimStart(s)[0])
    ensures forall i :: 0 <= i < |s| - |TrimStart(s)| ==> IsSpace(s[i])
  {
    if |s| > 0 && IsSpace(s[0]) {
      TrimStartSpec(s[1..]);
    }
  }

  /** `s` without its trailing whitespace. */
  function TrimEnd(s: string): (r: string)
    ensures |r| <= |s|
  {
    if |s| > 0 && IsSpace(s[|s| - 1]) then TrimEnd(s[..|s| - 1]) else s
  }

  /** Trimming the back removes exactly the trailing run of whitespace. */
  lemma {:induction false} TrimEndSpec(s: string)
    ensures TrimEnd(s) == s[..|TrimEnd(s)|]
    ensures TrimEnd(s) == [] || !IsSpace(TrimEnd(s)[|TrimEnd(s)| - 1])
    ensures forall i :: |TrimEnd(s)| <= i < |s| ==> IsSpace(s[i])
  {
    if |s| > 0 && IsSpace(s[|s| - 1]) {
      TrimEndSpec(s[..|s| - 1]);
    }
  }

  /** `s.strip()`: a piece of `s` that neither starts nor ends with whitespace. */
  function Strip(s: string): (r: string)
    ensures |r| <= |s|
    ensures r != [] ==> IsLabel(r)
  {
    var t := TrimStart(s);
    var r := TrimEnd(t);
    TrimStartSpec(s);
    TrimEndSpec(t);
    assert r != [] ==> r[0] == t[0];
    r
  }

  /** A line strips to nothing exactly when it is all whitespace: the blank lines `load_labels` skips. */
  lemma StripBlank(s: string)
    ensures Strip(s) == [] <==> forall i :: 0 <= i < |s| ==> IsSpace(s[i])
  {
    var t := TrimStart(s);
    TrimStartSpec(s);
    TrimEndSpec(t);
    if t != [] {
      assert !IsSpace(s[|s| - |t|]);
    }
  }

  /**
   * `[line.strip() for line in f if line.strip()]` over the lines of the
   * labels file (app.py:161).
   */
  function ParseLabels(lines: seq<string>): (labels: seq<string>)
    ensures |labels| <= |lines|
  {
    if lines == [] then []
    else
      var head := Strip(lines[0]);
      (if head == [] then [] else [head]) + ParseLabels(lines[1..])
  }

  /** Every parsed label is non-empty and has no whitespace at either end. */
  lemma {:induction false} ParseLabelsAreStripped(lines: seq<string>)
    ensures forall l :: l in ParseLabels(lines) ==> IsLabel(l)
  {
    if lines != [] {
      ParseLabelsAreStripped(lines[1..]);
    }
  }

  /** Every line that is not blank contributes its stripped text. */
  lemma {:induction false} ParseLabelsKeepsLine(lines: seq<string>, i: nat)
    requires i < |lines| && Strip(lines[i]) != []
    ensures Strip(lines[i]) in ParseLabels(lines)
  {
    if i > 0 {
      ParseLabelsKeepsLine(lines[1..], i - 1);
    }
  }

  /** A one-line file yields its stripped line, or nothing when the line is blank. */
  lemma ParseLabelsSingle(line: string)
    ensures ParseLabels([line]) == if Strip(line) == [] then [] else [Strip(line)]
  {
    assert [line][1..] == [];
  }

  /**
   * Parsing distributes over concatenation of line lists; with
   * ParseLabelsSingle this says the result is exactly the non-blank stripped
   * lines, in file order.
   */
  lemma {:induction false} ParseLabelsAppend(a: seq<string>, b: seq<string>)
    ensures ParseLabels(a + b) == ParseLabels(a) + ParseLabels(b)
  {
    if a == [] {
      assert a + b == b;
    } else {
      assert (a + b)[0] == a[0];
      assert (a + b)[1..] == a[1..] + b;
      ParseLabelsAppend(a[1..], b);
    }
  }

  /** The 30-colour palette (app.py:168-173). */
  const Palette: seq<string> := [
    "#FFCCCC", "#CCFFCC", "#CCCCFF", "#FFFFCC", "#FFCCFF", "#CCE5FF", "#E6FFCC", "#FFDACC",
    "#D9CCFF", "#FFB3BA", "#B3FFBA", "#BAE1FF", "#FFDFBA", "#EAD1DC", "#D5E8D4", "#FFF2CC",
    "#F8CECC", "#D4E1F5", "#F5E1D4", "#CCE8F4", "#FFD6E7", "#D6FFD6", "#D6D6FF", "#FFF0D6",
    "#FFD6F0", "#E6D6FF", "#D6FFF6", "#F0FFD6", "#FFD6CC", "#CCE6FF"
  ]

  /**
   * `{label: palette[i % 30] for i, label in enumerate(labels)}` (app.py:175).
   * The comprehension runs left to right, so a label listed twice keeps the
   * colour of its last position.
   */
  function ColorMap(labels: seq<string>): (colors: map<string, string>)
    ensures |colors| <= |labels|
  {
    if labels == [] then map[]
    else
      var n := |labels| - 1;
      ColorMap(labels[..n])[labels[n] := Palette[n % |Palette|]]
  }

  /** Exactly the listed labels have a colour. */
  lemma {:induction false} ColorMapKeys(labels: seq<string>)
    ensures ColorMap(labels).Keys == set l | l in labels
  {
    if labels != [] {
      var n := |labels| - 1;
      ColorMapKeys(labels[..n]);
      assert labels == labels[..n] + [labels[n]];
    }
  }

  /** The label at position i, when it does not occur again later, has palette colour i mod 30. */
  lemma {:induction false} ColorMapAt(labels: seq<string>, i: nat)
    requires i < |labels| && labels[i] !in labels[i + 1..]
    ensures labels[i] in ColorMap(labels) && ColorMap(labels)[labels[i]] == Palette[i % |Palette|]
  {
    var n := |labels| - 1;
    if i < n {
      assert labels[n] in labels[i + 1..];
      assert labels[..n][i + 1..] == labels[i + 1..n];
      assert labels[..n][i] == labels[i];
      ColorMapAt(labels[..n], i);
    }
  }

  /** With no repeated label, the label at position i gets palette colour i mod 30. */
  lemma DistinctLabelColors(labels: seq<string>, i: nat)
    requires i < |labels|
    requires forall j, k :: 0 <= j < k < |labels| ==> labels[j] != labels[k]
    ensures labels[i] in ColorMap(labels) && ColorMap(labels)[labels[i]] == Palette[i % 30]
  {
    assert labels[i] !in labels[i + 1..] by {
      forall k | i < k < |labels| ensures labels[k] != labels[i] { }
    }
    ColorMapAt(labels, i);
  }

  /** Python's `class_list.index(label)`: the first position, or None for a ValueError. */
  function IndexOf(labels: seq<string>, name: string): Option<nat>
  {
    if labels == [] then None
    else if labels[0] == name then Some(0)
    else
      match IndexOf(labels[1..], name)
      case None => None
      case Some(k) => Some(k + 1)
  }

  /** The class id written for a polygon: its label's first index, or 0 when missing (app.py:399-402). */
  function ClassId(labels: seq<string>, name: string): nat
  {
    match IndexOf(labels, name)
    case Some(i) => i
    case None => 0
  }

  /** The class id names the first registered occurrence of the label, else falls back to 0. */
  lemma {:induction false} ClassIdSpec(labels: seq<string>, name: string)
    ensures name in labels ==>
      ClassId(labels, name) < |labels| && labels[ClassId(labels, name)] == name
      && forall j :: 0 <= j < ClassId(labels, name) ==> labels[j] != name
    ensures name !in labels ==> ClassId(labels, name) == 0
  {
    if labels != [] && labels[0] != name {
      ClassIdSpec(labels[1..], name);
      assert name in labels <==> name in labels[1..];
    }
  }

  /** Label given to a loaded shape without one (app.py:274). */
  function DefaultLabel(labels: seq<string>): (r: string)
    ensures labels != [] ==> r == labels[0] && r in labels
    ensures labels == [] ==> r == "0"
  {
    if labels != [] then labels[0] else "0"
  }

  /** Label given to a polygon closed by a click: the selected class, or "0" with no classes (app.py:300). */
  function CommitLabel(labels: seq<string>, selected: string): (r: string)
    ensures labels != [] ==> r == selected
    ensures labels == [] ==> r == "0"
  {
    if labels != [] then selected else "0"
  }

  /** The registry part of the annotator state: `class_list`, `class_colors`, `class_var`. */
  datatype Classes = Classes(labels: seq<string>, colors: map<string, string>, selected: string)

  /** The selected class is one of the labels whenever labels are loaded. */
  predicate Valid(c: Classes) {
    c.labels != [] ==> c.selected in c.labels
  }

  datatype LoadStatus = Cancelled | EmptyLabels | Loaded

  /**
   * `load_labels` as written (app.py:155-181): the parsed list is stored in
   * `class_list` before the emptiness check, so a labels file of blank lines
   * empties the list while the colours and the selected class stay.
   */
  function LoadAsWritten(c: Classes, file: Option<seq<string>>): (r: (Classes, LoadStatus))
    ensures r.1 == EmptyLabels <==> file.Some? && ParseLabels(file.value) == []
    ensures r.1 == EmptyLabels ==> r.0.labels == [] && r.0.colors == c.colors && r.0.selected == c.selected
    ensures r.1 != EmptyLabels ==> r == Load(c, file)
  {
    match file
    case None => (c, Cancelled)
    case Some(lines) =>
      var labels := ParseLabels(lines);
      if labels == [] then (c.(labels := []), EmptyLabels)
      else (Classes(labels, ColorMap(labels), labels[0]), Loaded)
  }

  /** A blank labels file wipes the class list of a loaded registry but keeps its colour map. */
  lemma BlankFileWipesClassList()
    ensures var before := Classes(["cat"], map["cat" := Palette[0]], "cat");
            var (after, status) := LoadAsWritten(before, Some([" \n"]));
            status == EmptyLabels && after.labels == [] && "cat" in after.colors && after.selected == "cat"
  {
    assert IsSpace(' ') && IsSpace('\n');
    assert ParseLabels([" \n"]) == [] by {
      ParseLabelsSingle(" \n");
    }
  }

  /**
   * `load_labels` with the failed load leaving the previous registry in
   * place, as its error message and early return intend. A successful load
   * lists exactly the parsed labels, colours every one of them and selects
   * the first.
   */
  function Load(c: Classes, file: Option<seq<string>>): (r: (Classes, LoadStatus))
    ensures r.1 == Loaded <==> file.Some? && ParseLabels(file.value) != []
    ensures r.1 == Cancelled <==> file.None?
    ensures r.1 != Loaded ==> r.0 == c
    ensures r.1 == Loaded ==>
      r.0.labels == ParseLabels(file.value) && r.0.colors == ColorMap(r.0.labels)
      && r.0.selected == r.0.labels[0]
    ensures Valid(c) ==> Valid(r.0)
  {
    match file
    case None => (c, Cancelled)
    case Some(lines) =>
      var labels := ParseLabels(lines);
      if labels == [] then (c, EmptyLabels)
      else (Classes(labels, ColorMap(labels), labels[0]), Loaded)
  }

  /** `select_class`: a listbox selection picks the label at that index (app.py:209-212). */
  function Select(c: Classes, selection: Option<nat>): (r: Classes)
    ensures r.labels == c.labels && r.colors == c.colors
    ensures selection.Some? && selection.value < |c.labels| ==> r.selected == c.labels[selection.value]
    ensures !(selection.Some? && selection.value < |c.labels|) ==> r == c
    ensures Valid(c) ==> Valid(r)
  {
    if selection.Some? && selection.value < |c.labels| then c.(selected := c.labels[selection.value])
    else c
  }

  /**
   * `change_class_color`: a non-empty chosen colour replaces the label's
   * colour; a cancelled dialog changes nothing (app.py:202-207).
   */
  function SetColor(c: Classes, name: string, chosen: Option<string>): (r: Classes)
    ensures r.labels == c.labels && r.selected == c.selected
    ensures chosen.Some? && chosen.value != [] ==> name in r.colors && r.colors[name] == chosen.value
    ensures chosen.Some? && chosen.value != [] ==> r.colors.Keys == c.colors.Keys + {name}
    ensures forall l :: l != name && l in c.colors ==> l in r.colors && r.colors[l] == c.colors[l]
    ensures !(chosen.Some? && chosen.value != []) ==> r == c
  {
    if chosen.Some? && chosen.value != [] then c.(colors := c.colors[name := chosen.value]) else c
  }
}
