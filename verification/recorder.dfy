/** The main window's macro recorder: a `recording` flag (mirrored by the
    checkable Record button), an ordered command log, the user intents that
    check their guards, call the canvas and, while recording, append one
    self-contained command, and the replay that dispatches every logged
    command in order with recording switched off.

    The canvas methods the window calls are not part of this model; they are
    the fields of `Host`, total functions over an abstract canvas state `S`
    whose results are left uninterpreted. Dialog answers (file paths, label
    text) are parameters of the handlers; message boxes, icons and the pause
    between replayed commands have no effect on the state modelled here. */
module Recorder {
  import opened Common
  import opened Strings
  import opened Commands
  import CommandLaws
  import Macro

  /** The success flag of a canvas call and the canvas state after it. */
  datatype Step<S> = Step(ok: bool, canvas: S)

  /** The collaborators of the main window: the canvas methods it calls, and
      the number formatting (`arg(v, 0, 'f', 8)`), number parsing (`toDouble`)
      and `std::hypot` it uses. */
  datatype Host<!S> = Host(
    selectedIndices: S -> seq<int>,
    selectedPointsOrdered: S -> seq<int>,
    selectedLineCount: S -> int,
    selectedExtendedLineCount: S -> int,
    selectedCircleCount: S -> int,
    selectedLineIndex: S -> int,
    pointCount: S -> int,
    pointAt: (S, int) -> Pos,
    lineEndpointsAt: (S, int) -> Option<(Pos, Pos)>,
    selectedPointPositions: S -> seq<Pos>,
    selectedLineEndpoints: S -> seq<(Pos, Pos)>,
    selectedExtendedLineEndpoints: S -> seq<(Pos, Pos)>,
    selectedCircleData: S -> seq<(Pos, int)>,
    addLineBetweenSelected: S -> Step<S>,
    extendSelectedLines: S -> Step<S>,
    addCircle: (S, Pos, int) -> S,
    deleteSelected: S -> Step<S>,
    deleteAll: S -> S,
    addNormalAtPoint: (S, int, Pos) -> Step<S>,
    recomputeSelectedIntersections: S -> S,
    setLabelForSelection: (S, string) -> Step<S>,
    loadFromFile: (S, string) -> Step<S>,
    saveToFile: (S, string) -> bool,
    addPoint: (S, Pos, string, bool) -> Step<S>,
    clearSelection: S -> S,
    selectPointByPosition: (S, Pos, bool) -> Step<S>,
    selectLineByEndpoints: (S, Pos, Pos, bool) -> Step<S>,
    selectExtendedLineByEndpoints: (S, Pos, Pos, bool) -> Step<S>,
    selectCircleByCenterRadius: (S, Pos, int, bool) -> Step<S>,
    format: int -> string,
    parse: string -> Option<int>,
    hypot: (int, int) -> int
  )

  /** The recorder's state: the canvas, the `recording` flag, the checked state
      of the Record button, the command log and the next auto-label counter. */
  datatype Window<S> = Window(canvas: S, recording: bool, checked: bool, log: seq<string>, counter: int)

  /** Formatted numbers never contain a separator of the command formats. */
  ghost predicate CleanNumbers<S>(h: Host<S>) {
    forall v :: Clean(h.format(v))
  }

  /** The number of selected points: the size of the canvas's selected-index list. */
  function SelectedCount<S>(h: Host<S>, s: S): nat {
    |h.selectedIndices(s)|
  }

  /** The handler did not touch the recording flag or the Record button. */
  predicate KeepsMode<S>(w: Window<S>, r: Window<S>) {
    r.recording == w.recording && r.checked == w.checked
  }

  /** The log is unchanged, or grew by exactly one command at its end. */
  predicate LogStep(before: seq<string>, after: seq<string>) {
    after == before || (|after| == |before| + 1 && after[..|before|] == before)
  }

  /** The last command of a non-empty log. */
  function Last(log: seq<string>): string
    requires |log| > 0
  {
    log[|log| - 1]
  }

  function Refresh<S>(h: Host<S>, w: Window<S>): Window<S> {
    w.(counter := h.pointCount(w.canvas) + 1)
  }

  /** Appends `cmd` to the log when recording. */
  function Record<S>(w: Window<S>, cmd: string): Window<S> {
    if w.recording then w.(log := w.log + [cmd]) else w
  }

  /** The tokens written for a position. */
  function Text<S>(h: Host<S>, p: Pos): PointText {
    PointText(h.format(p.x), h.format(p.y))
  }

  // ---------------------------------------------------------------------------
  // Sorting (std::sort on a list of indices)

  predicate Sorted(xs: seq<int>) {
    forall i, j :: 0 <= i < j < |xs| ==> xs[i] <= xs[j]
  }

  /** `xs` with `x` inserted before the first element not smaller than it. */
  function Insert(x: int, xs: seq<int>): (r: seq<int>)
    requires Sorted(xs)
    ensures Sorted(r) && multiset(r) == multiset(xs) + multiset{x}
    ensures |r| == |xs| + 1 && (r[0] == x || (|xs| > 0 && r[0] == xs[0]))
    decreases |xs|
  {
    if |xs| == 0 then [x]
    else if x <= xs[0] then [x] + xs
    else
      var rest := Insert(x, xs[1..]);
      assert xs == [xs[0]] + xs[1..];
      assert xs[0] <= rest[0];
      [xs[0]] + rest
  }

  function Min(a: int, b: int): int {
    if a <= b then a else b
  }

  function Max(a: int, b: int): int {
    if a <= b then b else a
  }

  /** Two indices sort to the smaller one followed by the larger one. */
  lemma {:induction false} SortTwo(xs: seq<int>)
    ensures |xs| == 2 ==> Sort(xs) == [Min(xs[0], xs[1]), Max(xs[0], xs[1])]
  {
    if |xs| == 2 {
      var r := Sort(xs);
      assert r[0] <= r[1];
      SortedPair(r, xs[0], xs[1]);
    }
  }

  /** The only ascending arrangement of two values: the smaller, then the larger. */
  lemma {:induction false} SortedPair(r: seq<int>, a: int, b: int)
    requires |r| == 2 && r[0] <= r[1] && multiset(r) == multiset([a, b])
    ensures r == [Min(a, b), Max(a, b)]
  {
    var x, y := r[0], r[1];
    assert r == [x, y];
    assert x in multiset(r) && y in multiset(r);
    assert a in multiset([a, b]) && b in multiset([a, b]);
    assert x == a || x == b;
    assert y == a || y == b;
    assert a == x || a == y;
    assert b == x || b == y;
  }

  /** The elements of `xs` in ascending order. */
  function Sort(xs: seq<int>): (r: seq<int>)
    ensures Sorted(r) && multiset(r) == multiset(xs) && |r| == |xs|
    decreases |xs|
  {
    if |xs| == 0 then []
    else
      assert xs == [xs[0]] + xs[1..];
      Insert(xs[0], Sort(xs[1..]))
  }

  // ---------------------------------------------------------------------------
  // User intents

  /** The two points a recorded connection names: the first two in selection
      order, or the two smallest selected indices when fewer are ordered. */
  function ConnectEnds<S>(h: Host<S>, s: S): (ends: Option<(Pos, Pos)>)
    ensures ends.Some? <==> |h.selectedPointsOrdered(s)| >= 2 || |h.selectedIndices(s)| >= 2
    ensures var o := h.selectedPointsOrdered(s);
            |o| >= 2 ==> ends == Some((h.pointAt(s, o[0]), h.pointAt(s, o[1])))
    ensures var ix := Sort(h.selectedIndices(s));
            |h.selectedPointsOrdered(s)| < 2 && |ix| >= 2 ==>
              && ix[0] <= ix[1]
              && ends == Some((h.pointAt(s, ix[0]), h.pointAt(s, ix[1])))
    ensures |h.selectedPointsOrdered(s)| < 2 && |h.selectedIndices(s)| == 2 ==>
              var ix := h.selectedIndices(s);
              ends == Some((h.pointAt(s, Min(ix[0], ix[1])), h.pointAt(s, Max(ix[0], ix[1]))))
  {
    SortTwo(h.selectedIndices(s));
    var ordered := h.selectedPointsOrdered(s);
    var indices := if |ordered| < 2 then Sort(h.selectedIndices(s)) else ordered;
    if |indices| >= 2 then Some((h.pointAt(s, indices[0]), h.pointAt(s, indices[1]))) else None
  }

  /** Connect: needs two selected points; logs `addLine:` only when a line was added. */
  function OnAddLine<S>(h: Host<S>, w: Window<S>): (r: Window<S>)
    ensures KeepsMode(w, r) && LogStep(w.log, r.log)
    ensures SelectedCount(h, w.canvas) < 2 ==> r == w
    ensures r.log != w.log ==> w.recording && SelectedCount(h, w.canvas) >= 2 && h.addLineBetweenSelected(w.canvas).ok
    ensures SelectedCount(h, w.canvas) >= 2 && !h.addLineBetweenSelected(w.canvas).ok
            ==> r == w.(canvas := h.addLineBetweenSelected(w.canvas).canvas)
    ensures var st := h.addLineBetweenSelected(w.canvas);
            SelectedCount(h, w.canvas) >= 2 && st.ok ==>
              && r.canvas == st.canvas
              && r.counter == h.pointCount(st.canvas) + 1
              && var ends := ConnectEnds(h, st.canvas);
              && r.log == (if w.recording && ends.Some?
                           then w.log + [AddLineCommand(SegmentText(Text(h, ends.value.0), Text(h, ends.value.1)))]
                           else w.log)
  {
    if SelectedCount(h, w.canvas) < 2 then w
    else
      var st := h.addLineBetweenSelected(w.canvas);
      if !st.ok then w.(canvas := st.canvas)
      else
        var w1 := Refresh(h, w.(canvas := st.canvas));
        match ConnectEnds(h, st.canvas)
        case Some((a, b)) => Record(w1, AddLineCommand(SegmentText(Text(h, a), Text(h, b))))
        case None => w1
  }

  /** Extend: needs a selected line; once that holds `extendLines` is logged whatever the canvas reports. */
  function OnExtendLines<S>(h: Host<S>, w: Window<S>): (r: Window<S>)
    ensures KeepsMode(w, r) && LogStep(w.log, r.log)
    ensures h.selectedLineCount(w.canvas) < 1 ==> r == w
    ensures h.selectedLineCount(w.canvas) >= 1 ==>
              r.canvas == h.extendSelectedLines(w.canvas).canvas
              && r.log == (if w.recording then w.log + [ExtendLinesCommand] else w.log)
  {
    if h.selectedLineCount(w.canvas) < 1 then w
    else Record(Refresh(h, w.(canvas := h.extendSelectedLines(w.canvas).canvas)), ExtendLinesCommand)
  }

  /** The centre and the edge point of a new circle: the two points in selection
      order, or the two selected indices in ascending order. */
  function CircleEnds<S>(h: Host<S>, s: S): (ends: (Pos, Pos))
    requires SelectedCount(h, s) == 2
    ensures var o := h.selectedPointsOrdered(s);
            |o| == 2 ==> ends == (h.pointAt(s, o[0]), h.pointAt(s, o[1]))
    ensures |h.selectedPointsOrdered(s)| != 2 ==>
              var ix := h.selectedIndices(s);
              ends == (h.pointAt(s, Min(ix[0], ix[1])), h.pointAt(s, Max(ix[0], ix[1])))
  {
    SortTwo(h.selectedIndices(s));
    var ordered := h.selectedPointsOrdered(s);
    var indices := if |ordered| != 2 then Sort(h.selectedIndices(s)) else ordered;
    (h.pointAt(s, indices[0]), h.pointAt(s, indices[1]))
  }

  /** The radius of the circle through `ends`: the hypotenuse of their offsets. */
  function Radius<S>(h: Host<S>, ends: (Pos, Pos)): int {
    h.hypot(ends.0.x - ends.1.x, ends.0.y - ends.1.y)
  }

  /** Circle: needs exactly two selected points at a positive distance; then
      the circle is added and `addCircle:` logged with the centre and edge point. */
  function OnAddCircle<S>(h: Host<S>, w: Window<S>): (r: Window<S>)
    ensures KeepsMode(w, r) && LogStep(w.log, r.log)
    ensures SelectedCount(h, w.canvas) != 2 ==> r == w
    ensures SelectedCount(h, w.canvas) == 2 && Radius(h, CircleEnds(h, w.canvas)) <= 0 ==> r == w
    ensures r.log != w.log ==> w.recording && SelectedCount(h, w.canvas) == 2
    ensures w.recording && SelectedCount(h, w.canvas) == 2 && Radius(h, CircleEnds(h, w.canvas)) > 0
            ==> r.log != w.log
    ensures SelectedCount(h, w.canvas) == 2 && Radius(h, CircleEnds(h, w.canvas)) > 0 ==>
              var ends := CircleEnds(h, w.canvas);
              && r.canvas == h.addCircle(w.canvas, ends.0, Radius(h, ends))
              && r.counter == h.pointCount(r.canvas) + 1
              && r.log == (if w.recording
                           then w.log + [AddCircleCommand(SegmentText(Text(h, ends.0), Text(h, ends.1)))]
                           else w.log)
  {
    if SelectedCount(h, w.canvas) != 2 then w
    else
      var (center, edge) := CircleEnds(h, w.canvas);
      var radius := Radius(h, (center, edge));
      if radius <= 0 then w
      else
        Record(Refresh(h, w.(canvas := h.addCircle(w.canvas, center, radius))),
               AddCircleCommand(SegmentText(Text(h, center), Text(h, edge))))
  }

  function PointTexts<S>(h: Host<S>, ps: seq<Pos>): (r: seq<PointText>)
    ensures |r| == |ps| && forall i :: 0 <= i < |ps| ==> r[i] == Text(h, ps[i])
  {
    seq(|ps|, i requires 0 <= i < |ps| => Text(h, ps[i]))
  }

  function SegmentTexts<S>(h: Host<S>, ls: seq<(Pos, Pos)>): (r: seq<SegmentText>)
    ensures |r| == |ls| && forall i :: 0 <= i < |ls| ==> r[i] == SegmentText(Text(h, ls[i].0), Text(h, ls[i].1))
  {
    seq(|ls|, i requires 0 <= i < |ls| => SegmentText(Text(h, ls[i].0), Text(h, ls[i].1)))
  }

  function CircleTexts<S>(h: Host<S>, cs: seq<(Pos, int)>): (r: seq<CircleText>)
    ensures |r| == |cs| && forall i :: 0 <= i < |cs| ==> r[i] == CircleText(h.format(cs[i].0.x), h.format(cs[i].0.y), h.format(cs[i].1))
  {
    seq(|cs|, i requires 0 <= i < |cs| => CircleText(h.format(cs[i].0.x), h.format(cs[i].0.y), h.format(cs[i].1)))
  }

  /** The `deleteSelected` command describing the current selection by value. */
  function SelectionCommand<S>(h: Host<S>, s: S): string {
    DeleteCommand(PointTexts(h, h.selectedPointPositions(s)),
                  SegmentTexts(h, h.selectedLineEndpoints(s)),
                  SegmentTexts(h, h.selectedExtendedLineEndpoints(s)),
                  CircleTexts(h, h.selectedCircleData(s)))
  }

  /** The items replay should reselect for the current selection. */
  function SelectionItems<S>(h: Host<S>, s: S): seq<Item> {
    CommandLaws.PointItems(PointTexts(h, h.selectedPointPositions(s)))
    + CommandLaws.SegmentItems(SegmentTexts(h, h.selectedLineEndpoints(s)), false)
    + CommandLaws.SegmentItems(SegmentTexts(h, h.selectedExtendedLineEndpoints(s)), true)
    + CommandLaws.CircleItems(CircleTexts(h, h.selectedCircleData(s)))
  }

  /** Delete: the command is built from the selection before the deletion and
      logged only when the canvas reports that something was deleted. */
  function OnDelete<S>(h: Host<S>, w: Window<S>): (r: Window<S>)
    ensures KeepsMode(w, r)
    ensures r.canvas == h.deleteSelected(w.canvas).canvas
    ensures !h.deleteSelected(w.canvas).ok ==> r.log == w.log
    ensures h.deleteSelected(w.canvas).ok ==>
              r.log == (if w.recording then w.log + [SelectionCommand(h, w.canvas)] else w.log)
  {
    var cmd := if w.recording then SelectionCommand(h, w.canvas) else "";
    var st := h.deleteSelected(w.canvas);
    if !st.ok then w.(canvas := st.canvas)
    else
      var w1 := Refresh(h, w.(canvas := st.canvas));
      if w1.recording && cmd != "" then w1.(log := w1.log + [cmd]) else w1
  }

  /** Delete All: no guard; always logs `deleteAll` when recording. */
  function OnDeleteAll<S>(h: Host<S>, w: Window<S>): (r: Window<S>)
    ensures KeepsMode(w, r)
    ensures r.canvas == h.deleteAll(w.canvas)
    ensures r.log == (if w.recording then w.log + [DeleteAllCommand] else w.log)
  {
    Record(Refresh(h, w.(canvas := h.deleteAll(w.canvas))), DeleteAllCommand)
  }

  /** Open: `path` is the chosen file, "" when the dialog was cancelled; `open:`
      is logged only after a successful load. */
  function OnOpenFile<S>(h: Host<S>, w: Window<S>, path: string): (r: Window<S>)
    ensures KeepsMode(w, r) && LogStep(w.log, r.log)
    ensures path == "" ==> r == w
    ensures r.log != w.log ==> w.recording && path != "" && h.loadFromFile(w.canvas, path).ok
                               && Last(r.log) == OpenCommand(path)
    ensures path != "" ==> r.canvas == h.loadFromFile(w.canvas, path).canvas
    ensures path != "" && !h.loadFromFile(w.canvas, path).ok ==> r.log == w.log && r.counter == w.counter
    ensures path != "" && h.loadFromFile(w.canvas, path).ok ==>
              && r.counter == h.pointCount(r.canvas) + 1
              && r.log == (if w.recording then w.log + [OpenCommand(path)] else w.log)
  {
    if path == "" then w
    else
      var st := h.loadFromFile(w.canvas, path);
      if !st.ok then w.(canvas := st.canvas)
      else Record(Refresh(h, w.(canvas := st.canvas)), OpenCommand(path))
  }

  /** The path a save goes to: ".json" is appended unless the name already ends
      with it, ignoring case. */
  function SavePath(chosen: string): (path: string)
    ensures EndsWithIgnoringCase(path, ".json")
    ensures EndsWithIgnoringCase(chosen, ".json") ==> path == chosen
    ensures !EndsWithIgnoringCase(chosen, ".json") ==> path == chosen + ".json"
  {
    if EndsWithIgnoringCase(chosen, ".json") then chosen
    else
      var path := chosen + ".json";
      assert forall k :: 0 <= k < 5 ==> path[|path| - 5 + k] == ".json"[k];
      path
  }

  /** Save As: `chosen` is the dialog's answer; `save:` is logged only when the canvas saved. */
  function OnSaveAs<S>(h: Host<S>, w: Window<S>, chosen: string): (r: Window<S>)
    ensures KeepsMode(w, r) && LogStep(w.log, r.log) && r.canvas == w.canvas
    ensures chosen == "" ==> r == w
    ensures r.log != w.log ==> w.recording && chosen != "" && h.saveToFile(w.canvas, SavePath(chosen))
                               && Last(r.log) == SaveCommand(SavePath(chosen))
    ensures r.counter == w.counter
    ensures w.recording && chosen != "" && h.saveToFile(w.canvas, SavePath(chosen))
            ==> r.log == w.log + [SaveCommand(SavePath(chosen))]
  {
    if chosen == "" then w
    else
      var path := SavePath(chosen);
      if h.saveToFile(w.canvas, path) then Record(w, SaveCommand(path)) else w
  }

  /** Normal: needs exactly one selected line and one selected point, both with
      valid indices; `addNormal:` is logged only when the normal was added and
      the line's end points can be read. */
  function OnIntersect<S>(h: Host<S>, w: Window<S>): (r: Window<S>)
    ensures KeepsMode(w, r) && LogStep(w.log, r.log)
    ensures h.selectedLineCount(w.canvas) != 1 || SelectedCount(h, w.canvas) != 1 ==> r == w
    ensures r.log != w.log ==> w.recording && h.selectedLineCount(w.canvas) == 1 && SelectedCount(h, w.canvas) == 1
    ensures h.selectedLineCount(w.canvas) == 1 && SelectedCount(h, w.canvas) == 1 ==>
              var lineIdx := h.selectedLineIndex(w.canvas);
              var pointIdx := h.selectedIndices(w.canvas)[0];
              var p := h.pointAt(w.canvas, pointIdx);
              var st := h.addNormalAtPoint(w.canvas, lineIdx, p);
              && (lineIdx < 0 || pointIdx < 0 ==> r == w)
              && (lineIdx >= 0 && pointIdx >= 0 && !st.ok ==> r == w.(canvas := st.canvas))
              && (lineIdx >= 0 && pointIdx >= 0 && st.ok ==>
                    && r.canvas == st.canvas
                    && r.counter == h.pointCount(st.canvas) + 1
                    && var ends := h.lineEndpointsAt(st.canvas, lineIdx);
                    && r.log == (if w.recording && ends.Some?
                                 then w.log + [AddNormalCommand(NormalText(SegmentText(Text(h, ends.value.0), Text(h, ends.value.1)), Text(h, p)))]
                                 else w.log))
  {
    var s := w.canvas;
    if h.selectedLineCount(s) != 1 || SelectedCount(h, s) != 1 then w
    else
      var lineIdx := h.selectedLineIndex(s);
      var pointIdx := h.selectedIndices(s)[0];
      if lineIdx < 0 || pointIdx < 0 then w
      else
        var p := h.pointAt(s, pointIdx);
        var st := h.addNormalAtPoint(s, lineIdx, p);
        if !st.ok then w.(canvas := st.canvas)
        else
          var w1 := Refresh(h, w.(canvas := st.canvas));
          match h.lineEndpointsAt(st.canvas, lineIdx)
          case Some((a, b)) => Record(w1, AddNormalCommand(NormalText(SegmentText(Text(h, a), Text(h, b)), Text(h, p))))
          case None => w1
  }

  /** Intersect: no guard; always logs `intersections` when recording. */
  function OnIntersections<S>(h: Host<S>, w: Window<S>): (r: Window<S>)
    ensures KeepsMode(w, r)
    ensures r.canvas == h.recomputeSelectedIntersections(w.canvas)
    ensures r.log == (if w.recording then w.log + [IntersectionsCommand] else w.log)
  {
    Record(Refresh(h, w.(canvas := h.recomputeSelectedIntersections(w.canvas))), IntersectionsCommand)
  }

  /** The number of selected objects of all four kinds. */
  function TotalSelected<S>(h: Host<S>, s: S): int {
    SelectedCount(h, s) + h.selectedLineCount(s) + h.selectedExtendedLineCount(s) + h.selectedCircleCount(s)
  }

  /** Label: needs exactly one selected object; `answer` is the dialog's text,
      `None` when cancelled; `setLabel:` is logged only when the label was set. */
  function OnEditLabel<S>(h: Host<S>, w: Window<S>, answer: Option<string>): (r: Window<S>)
    ensures KeepsMode(w, r) && LogStep(w.log, r.log)
    ensures TotalSelected(h, w.canvas) != 1 || answer.None? ==> r == w
    ensures r.log != w.log ==> w.recording && TotalSelected(h, w.canvas) == 1 && answer.Some?
                               && h.setLabelForSelection(w.canvas, answer.value).ok
                               && Last(r.log) == SetLabelCommand(answer.value)
    ensures r.counter == w.counter
    ensures TotalSelected(h, w.canvas) == 1 && answer.Some? ==>
              var st := h.setLabelForSelection(w.canvas, answer.value);
              && r.canvas == st.canvas
              && r.log == (if w.recording && st.ok then w.log + [SetLabelCommand(answer.value)] else w.log)
  {
    if TotalSelected(h, w.canvas) != 1 then w
    else
      match answer
      case None => w
      case Some(text) =>
        var st := h.setLabelForSelection(w.canvas, text);
        if !st.ok then w.(canvas := st.canvas)
        else Record(w.(canvas := st.canvas), SetLabelCommand(text))
  }

  /** The canvas announced a new point at `p`: logged as `addPoint:` when recording. */
  function OnPointAdded<S>(h: Host<S>, w: Window<S>, p: Pos): (r: Window<S>)
    ensures r.canvas == w.canvas && KeepsMode(w, r)
    ensures !w.recording ==> r == w
    ensures w.recording ==> r.log == w.log + [AddPointCommand(Text(h, p))]
  {
    Record(w, AddPointCommand(Text(h, p)))
  }

  /** Open Macro: `file` is the text of the chosen file, `None` when the dialog
      was cancelled or the file could not be opened. The log is replaced by the
      file's trimmed non-empty lines; the recording flag is left as it is. */
  function OnOpenMacro<S>(w: Window<S>, file: Option<string>): (r: Window<S>)
    ensures KeepsMode(w, r) && r.canvas == w.canvas
    ensures file.None? ==> r == w
    ensures file.Some? ==> forall i :: 0 <= i < |r.log| ==> Macro.Storable(r.log[i])
    ensures file.Some? ==> r == w.(log := Macro.LoadMacro(file.value))
  {
    match file
    case None => w
    case Some(content) => w.(log := Macro.LoadMacro(content))
  }

  /** Opening a macro file whose lines are `lines` replaces the log by the
      trimmed, non-empty lines, in file order. */
  lemma OpenMacroKeepsLines<S>(w: Window<S>, lines: seq<string>)
    requires |lines| >= 1
    requires forall i :: 0 <= i < |lines| ==> '\n' !in lines[i]
    ensures OnOpenMacro(w, Some(Join(lines, '\n'))).log == Macro.KeepCommands(lines)
  {
    Macro.LoadMacroLines(lines);
  }

  /** The Record button was clicked: its checked state flips, and the new state
      becomes the recording flag; starting to record clears the log. */
  function ClickRecord<S>(w: Window<S>): (r: Window<S>)
    ensures r.checked == !w.checked && r.recording == r.checked && r.canvas == w.canvas
    ensures r.recording ==> r.log == []
    ensures !r.recording ==> r.log == w.log
  {
    var pressed := w.(checked := !w.checked);
    var r := pressed.(recording := pressed.checked);
    if r.recording then r.(log := []) else r
  }

  // ---------------------------------------------------------------------------
  // Replay

  /** The position named by a point's tokens, when both parse as numbers. */
  function Resolve<S>(h: Host<S>, t: PointText): Option<Pos> {
    match (h.parse(t.x), h.parse(t.y))
    case (Some(x), Some(y)) => Some(Pos(x, y))
    case _ => None
  }

  /** Adds one object named by a `deleteSelected` command to the selection. */
  function SelectItem<S>(h: Host<S>, s: S, item: Item): S {
    match item
    case PointItem(t) =>
      (match Resolve(h, t)
       case Some(p) => h.selectPointByPosition(s, p, true).canvas
       case None => s)
    case LineItem(seg) =>
      (match (Resolve(h, seg.a), Resolve(h, seg.b))
       case (Some(a), Some(b)) => h.selectLineByEndpoints(s, a, b, true).canvas
       case _ => s)
    case ExtendedItem(seg) =>
      (match (Resolve(h, seg.a), Resolve(h, seg.b))
       case (Some(a), Some(b)) => h.selectExtendedLineByEndpoints(s, a, b, true).canvas
       case _ => s)
    case CircleItem(c) =>
      (match (h.parse(c.x), h.parse(c.y), h.parse(c.r))
       case (Some(x), Some(y), Some(radius)) => h.selectCircleByCenterRadius(s, Pos(x, y), radius, true).canvas
       case _ => s)
  }

  /** Selects the items one after the other. */
  function SelectItems<S>(h: Host<S>, s: S, items: seq<Item>): S
    decreases |items|
  {
    if |items| == 0 then s else SelectItems(h, SelectItem(h, s, items[0]), items[1..])
  }

  /** Replays `deleteSelected`: clear the selection, reselect the items, delete. */
  function ReplayDelete<S>(h: Host<S>, w: Window<S>, items: seq<Item>): (r: Window<S>)
    ensures KeepsMode(w, r) && r.log == w.log
  {
    var s := SelectItems(h, h.clearSelection(w.canvas), items);
    Refresh(h, w.(canvas := h.deleteSelected(s).canvas))
  }

  /** Adds the point at `p`, selected. */
  function ReplayPointAt<S>(h: Host<S>, w: Window<S>, p: Pos): Window<S> {
    Refresh(h, w.(canvas := h.addPoint(w.canvas, p, "", true).canvas))
  }

  /** Replays `addPoint:`: adds the point when both tokens parse. */
  function ReplayAddPoint<S>(h: Host<S>, w: Window<S>, t: PointText): Window<S> {
    match Resolve(h, t)
    case Some(p) => ReplayPointAt(h, w, p)
    case None => w
  }

  /** Selects the point at `p`, adding it first when the selection finds none there. */
  function EnsureSelected<S>(h: Host<S>, s: S, p: Pos, additive: bool): Step<S> {
    var sel := h.selectPointByPosition(s, p, additive);
    if sel.ok then sel
    else h.selectPointByPosition(h.addPoint(sel.canvas, p, "", additive).canvas, p, additive)
  }

  /** Selects (adding if needed) the points at `a` and `b`, then connects them. */
  function ReplayLineAt<S>(h: Host<S>, w: Window<S>, a: Pos, b: Pos): (r: Window<S>)
    ensures KeepsMode(w, r) && r.log == w.log
  {
    var selA := EnsureSelected(h, h.clearSelection(w.canvas), a, false);
    var selB := EnsureSelected(h, selA.canvas, b, true);
    if selA.ok && selB.ok then Refresh(h, w.(canvas := h.addLineBetweenSelected(selB.canvas).canvas))
    else w.(canvas := selB.canvas)
  }

  /** Replays `addLine:` when both end points parse. */
  function ReplayAddLine<S>(h: Host<S>, w: Window<S>, seg: SegmentText): Window<S> {
    match (Resolve(h, seg.a), Resolve(h, seg.b))
    case (Some(a), Some(b)) => ReplayLineAt(h, w, a, b)
    case _ => w
  }

  /** Selects the centre, then the edge point, then runs the Circle intent. */
  function ReplayCircleAt<S>(h: Host<S>, w: Window<S>, a: Pos, b: Pos): (r: Window<S>)
    ensures KeepsMode(w, r) && LogStep(w.log, r.log)
    ensures !w.recording ==> r.log == w.log
  {
    var selA := h.selectPointByPosition(h.clearSelection(w.canvas), a, false);
    var selB := h.selectPointByPosition(selA.canvas, b, true);
    if selA.ok && selB.ok then Refresh(h, OnAddCircle(h, w.(canvas := selB.canvas)))
    else w.(canvas := selB.canvas)
  }

  /** Replays `addCircle:` when both points parse. */
  function ReplayAddCircle<S>(h: Host<S>, w: Window<S>, seg: SegmentText): Window<S> {
    match (Resolve(h, seg.a), Resolve(h, seg.b))
    case (Some(a), Some(b)) => ReplayCircleAt(h, w, a, b)
    case _ => w
  }

  /** Selects the line from `a` to `b` and the point at `p`, then runs the Normal intent. */
  function ReplayNormalAt<S>(h: Host<S>, w: Window<S>, a: Pos, b: Pos, p: Pos): (r: Window<S>)
    ensures KeepsMode(w, r) && LogStep(w.log, r.log)
    ensures !w.recording ==> r.log == w.log
  {
    var selLine := h.selectLineByEndpoints(h.clearSelection(w.canvas), a, b, false);
    var selPoint := h.selectPointByPosition(selLine.canvas, p, true);
    if selLine.ok && selPoint.ok then Refresh(h, OnIntersect(h, w.(canvas := selPoint.canvas)))
    else w.(canvas := selPoint.canvas)
  }

  /** Replays `addNormal:` when all three points parse. */
  function ReplayAddNormal<S>(h: Host<S>, w: Window<S>, n: NormalText): Window<S> {
    match (Resolve(h, n.line.a), Resolve(h, n.line.b), Resolve(h, n.through))
    case (Some(a), Some(b), Some(p)) => ReplayNormalAt(h, w, a, b, p)
    case _ => w
  }

  /** Performs one logged command. A command that matches no branch is ignored. */
  function Dispatch<S>(h: Host<S>, w: Window<S>, cmd: string): (r: Window<S>)
    ensures KeepsMode(w, r)
    ensures !w.recording ==> r.log == w.log
    ensures Parse(cmd) == Ignored ==> r == w
  {
    match Parse(cmd)
    case ExtendLines => OnExtendLines(h, w)
    case AddCircleSelected => OnAddCircle(h, w)
    case DeleteSelected(items) => ReplayDelete(h, w, items)
    case DeleteAll => OnDeleteAll(h, w)
    case AddNormalSelected => OnIntersect(h, w)
    case Intersections => OnIntersections(h, w)
    case AddPoint(at) => if at.Some? then ReplayAddPoint(h, w, at.value) else w
    case SetLabel(text) => w.(canvas := h.setLabelForSelection(w.canvas, text).canvas)
    case Open(path) => Refresh(h, w.(canvas := h.loadFromFile(w.canvas, path).canvas))
    case Save(path) => w
    case AddNormal(n) => if n.Some? then ReplayAddNormal(h, w, n.value) else w
    case AddLine(seg) => if seg.Some? then ReplayAddLine(h, w, seg.value) else w
    case AddCircle(seg) => if seg.Some? then ReplayAddCircle(h, w, seg.value) else w
    case Ignored => w
  }

  /** Performs the commands in order, each once. */
  function ReplayAll<S>(h: Host<S>, w: Window<S>, cmds: seq<string>): (r: Window<S>)
    ensures KeepsMode(w, r)
    ensures !w.recording ==> r.log == w.log
    decreases |cmds|
  {
    if |cmds| == 0 then w else ReplayAll(h, Dispatch(h, w, cmds[0]), cmds[1..])
  }

  /** The window once Run has switched recording off (and unchecked the button). */
  function Stopped<S>(w: Window<S>): Window<S> {
    if w.recording then w.(recording := false, checked := false) else w
  }

  /** Run: switch recording off, then perform every logged command in order
      with recording off, so that nothing is appended during the replay. */
  method Run<S>(h: Host<S>, w: Window<S>) returns (r: Window<S>)
    ensures !r.recording
    ensures w.recording ==> !r.checked
    ensures !w.recording ==> r.checked == w.checked
    ensures r.log == w.log
    ensures |w.log| == 0 ==> r == Stopped(w)
    ensures r == ReplayAll(h, Stopped(w), w.log)
  {
    var cur := Stopped(w);
    if |cur.log| == 0 {
      return cur;
    }
    var wasRecording := cur.recording;
    cur := cur.(recording := false);
    var i := 0;
    while i < |cur.log|
      invariant 0 <= i <= |w.log|
      invariant cur.log == w.log && !cur.recording
      invariant cur.checked == Stopped(w).checked
      invariant ReplayAll(h, cur, w.log[i..]) == ReplayAll(h, Stopped(w), w.log)
      decreases |w.log| - i
    {
      assert w.log[i..][1..] == w.log[i + 1..];
      cur := Dispatch(h, cur, cur.log[i]);
      i := i + 1;
    }
    r := cur.(recording := wasRecording);
  }

  // ---------------------------------------------------------------------------
  // What a recorded command does on replay

  /** Parsing a formatted number gives the number back. */
  ghost predicate ReadsBack<S>(h: Host<S>) {
    forall v :: h.parse(h.format(v)) == Some(v)
  }

  lemma ResolveText<S>(h: Host<S>, p: Pos)
    requires ReadsBack(h)
    ensures Resolve(h, Text(h, p)) == Some(p)
  {
  }

  /** Adds the points at `ps` to the selection, in order. */
  function SelectPoints<S>(h: Host<S>, s: S, ps: seq<Pos>): S
    decreases |ps|
  {
    if |ps| == 0 then s else SelectPoints(h, h.selectPointByPosition(s, ps[0], true).canvas, ps[1..])
  }

  /** Adds the lines (or extended lines) with end points `ls` to the selection, in order. */
  function SelectLines<S>(h: Host<S>, s: S, ls: seq<(Pos, Pos)>, extended: bool): S
    decreases |ls|
  {
    if |ls| == 0 then s
    else
      var st := if extended then h.selectExtendedLineByEndpoints(s, ls[0].0, ls[0].1, true)
                else h.selectLineByEndpoints(s, ls[0].0, ls[0].1, true);
      SelectLines(h, st.canvas, ls[1..], extended)
  }

  /** Adds the circles with centres and radii `cs` to the selection, in order. */
  function SelectCircles<S>(h: Host<S>, s: S, cs: seq<(Pos, int)>): S
    decreases |cs|
  {
    if |cs| == 0 then s else SelectCircles(h, h.selectCircleByCenterRadius(s, cs[0].0, cs[0].1, true).canvas, cs[1..])
  }

  /** Adds to the selection of `s` every object selected in `sel`: points,
      lines, extended lines, then circles. */
  function SelectRecorded<S>(h: Host<S>, s: S, sel: S): S {
    var s1 := SelectPoints(h, s, h.selectedPointPositions(sel));
    var s2 := SelectLines(h, s1, h.selectedLineEndpoints(sel), false);
    var s3 := SelectLines(h, s2, h.selectedExtendedLineEndpoints(sel), true);
    SelectCircles(h, s3, h.selectedCircleData(sel))
  }

  /** Selecting `a + b` is selecting `a`, then `b`. */
  lemma {:induction false} SelectItemsAppend<S>(h: Host<S>, s: S, a: seq<Item>, b: seq<Item>)
    ensures SelectItems(h, s, a + b) == SelectItems(h, SelectItems(h, s, a), b)
    decreases |a|
  {
    if |a| == 0 {
      assert a + b == b;
    } else {
      assert (a + b)[1..] == a[1..] + b;
      SelectItemsAppend(h, SelectItem(h, s, a[0]), a[1..], b);
    }
  }

  /** The point items written for `ps` reselect the points at `ps`. */
  lemma {:induction false} ReselectPoints<S>(h: Host<S>, s: S, ps: seq<Pos>)
    requires ReadsBack(h)
    ensures SelectItems(h, s, CommandLaws.PointItems(PointTexts(h, ps))) == SelectPoints(h, s, ps)
    decreases |ps|
  {
    if |ps| > 0 {
      var items := CommandLaws.PointItems(PointTexts(h, ps));
      assert items[1..] == CommandLaws.PointItems(PointTexts(h, ps[1..]));
      ResolveText(h, ps[0]);
      ReselectPoints(h, h.selectPointByPosition(s, ps[0], true).canvas, ps[1..]);
    }
  }

  /** The line items written for `ls` reselect the lines with those end points. */
  lemma {:induction false} ReselectLines<S>(h: Host<S>, s: S, ls: seq<(Pos, Pos)>, extended: bool)
    requires ReadsBack(h)
    ensures SelectItems(h, s, CommandLaws.SegmentItems(SegmentTexts(h, ls), extended)) == SelectLines(h, s, ls, extended)
    decreases |ls|
  {
    if |ls| > 0 {
      var items := CommandLaws.SegmentItems(SegmentTexts(h, ls), extended);
      assert items[1..] == CommandLaws.SegmentItems(SegmentTexts(h, ls[1..]), extended);
      ResolveText(h, ls[0].0);
      ResolveText(h, ls[0].1);
      var st := if extended then h.selectExtendedLineByEndpoints(s, ls[0].0, ls[0].1, true)
                else h.selectLineByEndpoints(s, ls[0].0, ls[0].1, true);
      ReselectLines(h, st.canvas, ls[1..], extended);
    }
  }

  /** The circle items written for `cs` reselect the circles with those centres and radii. */
  lemma {:induction false} ReselectCircles<S>(h: Host<S>, s: S, cs: seq<(Pos, int)>)
    requires ReadsBack(h)
    ensures SelectItems(h, s, CommandLaws.CircleItems(CircleTexts(h, cs))) == SelectCircles(h, s, cs)
    decreases |cs|
  {
    if |cs| > 0 {
      var items := CommandLaws.CircleItems(CircleTexts(h, cs));
      assert items[1..] == CommandLaws.CircleItems(CircleTexts(h, cs[1..]));
      var c := cs[0];
      assert items[0] == CircleItem(CircleText(h.format(c.0.x), h.format(c.0.y), h.format(c.1)));
      assert h.parse(h.format(c.0.x)) == Some(c.0.x) && h.parse(h.format(c.0.y)) == Some(c.0.y);
      var radius: int := c.1;
      assert h.parse(h.format(radius)) == Some(radius);
      assert SelectItem(h, s, items[0]) == h.selectCircleByCenterRadius(s, c.0, c.1, true).canvas;
      ReselectCircles(h, h.selectCircleByCenterRadius(s, cs[0].0, cs[0].1, true).canvas, cs[1..]);
    }
  }

  /** The items of a recorded selection reselect, by value, everything that was selected. */
  lemma ReselectSelection<S>(h: Host<S>, s: S, sel: S)
    requires ReadsBack(h)
    ensures SelectItems(h, s, SelectionItems(h, sel)) == SelectRecorded(h, s, sel)
  {
    var ps := CommandLaws.PointItems(PointTexts(h, h.selectedPointPositions(sel)));
    var ls := CommandLaws.SegmentItems(SegmentTexts(h, h.selectedLineEndpoints(sel)), false);
    var es := CommandLaws.SegmentItems(SegmentTexts(h, h.selectedExtendedLineEndpoints(sel)), true);
    var cs := CommandLaws.CircleItems(CircleTexts(h, h.selectedCircleData(sel)));
    SelectItemsAppend(h, s, ps + ls + es, cs);
    SelectItemsAppend(h, s, ps + ls, es);
    SelectItemsAppend(h, s, ps, ls);
    ReselectPoints(h, s, h.selectedPointPositions(sel));
    var s1 := SelectItems(h, s, ps);
    ReselectLines(h, s1, h.selectedLineEndpoints(sel), false);
    var s2 := SelectItems(h, s1, ls);
    ReselectLines(h, s2, h.selectedExtendedLineEndpoints(sel), true);
    var s3 := SelectItems(h, s2, es);
    ReselectCircles(h, s3, h.selectedCircleData(sel));
  }

  /** A recorded deletion replays as: clear the selection, reselect by value
      what was selected when it was recorded, delete. */
  lemma DeleteReplays<S>(h: Host<S>, w: Window<S>, w2: Window<S>)
    requires CleanNumbers(h) && ReadsBack(h)
    ensures var r := OnDelete(h, w);
            r.log != w.log ==>
              && |r.log| == |w.log| + 1
              && Parse(Last(r.log)) == DeleteSelected(SelectionItems(h, w.canvas))
              && Dispatch(h, w2, Last(r.log)).canvas
                 == h.deleteSelected(SelectRecorded(h, h.clearSelection(w2.canvas), w.canvas)).canvas
  {
    var s := w.canvas;
    var ps := PointTexts(h, h.selectedPointPositions(s));
    var ls := SegmentTexts(h, h.selectedLineEndpoints(s));
    var es := SegmentTexts(h, h.selectedExtendedLineEndpoints(s));
    var cs := CircleTexts(h, h.selectedCircleData(s));
    forall i | 0 <= i < |cs|
      ensures CleanCircle(cs[i])
    {
      var c := h.selectedCircleData(s)[i];
      assert cs[i] == CircleText(h.format(c.0.x), h.format(c.0.y), h.format(c.1));
      var radius: int := c.1;
      assert Clean(h.format(c.0.x)) && Clean(h.format(c.0.y)) && Clean(h.format(radius));
    }
    CommandLaws.ParseDelete(ps, ls, es, cs);
    ReselectSelection(h, h.clearSelection(w2.canvas), s);
  }

  /** A recorded connection replays as a connection of the same two positions. */
  lemma ConnectReplays<S>(h: Host<S>, w: Window<S>, w2: Window<S>)
    requires CleanNumbers(h) && ReadsBack(h)
    ensures var r := OnAddLine(h, w);
            var ends := ConnectEnds(h, h.addLineBetweenSelected(w.canvas).canvas);
            r.log != w.log ==>
              && ends.Some? && |r.log| == |w.log| + 1
              && Parse(Last(r.log)) == AddLine(Some(SegmentText(Text(h, ends.value.0), Text(h, ends.value.1))))
              && Dispatch(h, w2, Last(r.log)) == ReplayLineAt(h, w2, ends.value.0, ends.value.1)
  {
    var r := OnAddLine(h, w);
    var ends := ConnectEnds(h, h.addLineBetweenSelected(w.canvas).canvas);
    if r.log != w.log {
      var (a, b) := ends.value;
      var cmd := AddLineCommand(SegmentText(Text(h, a), Text(h, b)));
      assert Last(r.log) == cmd;
      CommandLaws.ParseAddLine(SegmentText(Text(h, a), Text(h, b)));
      DispatchAddLine(h, w2, cmd, a, b);
    }
  }

  /** A recorded circle replays with the same centre and edge point. */
  lemma CircleReplays<S>(h: Host<S>, w: Window<S>, w2: Window<S>)
    requires CleanNumbers(h) && ReadsBack(h)
    ensures var r := OnAddCircle(h, w);
            r.log != w.log ==>
              && SelectedCount(h, w.canvas) == 2 && |r.log| == |w.log| + 1
              && var ends := CircleEnds(h, w.canvas);
              && Parse(Last(r.log)) == AddCircle(Some(SegmentText(Text(h, ends.0), Text(h, ends.1))))
              && Dispatch(h, w2, Last(r.log)) == ReplayCircleAt(h, w2, ends.0, ends.1)
  {
    var r := OnAddCircle(h, w);
    if r.log != w.log {
      var ends := CircleEnds(h, w.canvas);
      var cmd := AddCircleCommand(SegmentText(Text(h, ends.0), Text(h, ends.1)));
      assert Last(r.log) == cmd;
      CommandLaws.ParseAddCircle(SegmentText(Text(h, ends.0), Text(h, ends.1)));
      DispatchAddCircle(h, w2, cmd, ends.0, ends.1);
    }
  }

  /** An `addCircle:` command naming the tokens of `a` and `b` replays the circle at `a` and `b`. */
  lemma DispatchAddCircle<S>(h: Host<S>, w2: Window<S>, cmd: string, a: Pos, b: Pos)
    requires ReadsBack(h)
    requires Parse(cmd) == AddCircle(Some(SegmentText(Text(h, a), Text(h, b))))
    ensures Dispatch(h, w2, cmd) == ReplayCircleAt(h, w2, a, b)
  {
    ResolveText(h, a);
    ResolveText(h, b);
  }

  /** An `addLine:` command naming the tokens of `a` and `b` replays the line from `a` to `b`. */
  lemma DispatchAddLine<S>(h: Host<S>, w2: Window<S>, cmd: string, a: Pos, b: Pos)
    requires ReadsBack(h)
    requires Parse(cmd) == AddLine(Some(SegmentText(Text(h, a), Text(h, b))))
    ensures Dispatch(h, w2, cmd) == ReplayLineAt(h, w2, a, b)
  {
    ResolveText(h, a);
    ResolveText(h, b);
  }

  /** An `addNormal:` command naming the tokens of `a`, `b` and `p` replays that normal. */
  lemma DispatchAddNormal<S>(h: Host<S>, w2: Window<S>, cmd: string, a: Pos, b: Pos, p: Pos)
    requires ReadsBack(h)
    requires Parse(cmd) == AddNormal(Some(NormalText(SegmentText(Text(h, a), Text(h, b)), Text(h, p))))
    ensures Dispatch(h, w2, cmd) == ReplayNormalAt(h, w2, a, b, p)
  {
    ResolveText(h, a);
    ResolveText(h, b);
    ResolveText(h, p);
  }

  /** A recorded normal replays on the line's current end points through the same point. */
  lemma NormalReplays<S>(h: Host<S>, w: Window<S>, w2: Window<S>)
    requires CleanNumbers(h) && ReadsBack(h)
    ensures var r := OnIntersect(h, w);
            r.log != w.log ==>
              && SelectedCount(h, w.canvas) == 1 && |r.log| == |w.log| + 1
              && var lineIdx := h.selectedLineIndex(w.canvas);
              && var p := h.pointAt(w.canvas, h.selectedIndices(w.canvas)[0]);
              && var ends := h.lineEndpointsAt(h.addNormalAtPoint(w.canvas, lineIdx, p).canvas, lineIdx);
              && ends.Some?
              && Dispatch(h, w2, Last(r.log)) == ReplayNormalAt(h, w2, ends.value.0, ends.value.1, p)
  {
    var s := w.canvas;
    if h.selectedLineCount(s) == 1 && SelectedCount(h, s) == 1 {
      var lineIdx := h.selectedLineIndex(s);
      var p := h.pointAt(s, h.selectedIndices(s)[0]);
      var ends := h.lineEndpointsAt(h.addNormalAtPoint(s, lineIdx, p).canvas, lineIdx);
      if ends.Some? {
        var (a, b) := ends.value;
        var n := NormalText(SegmentText(Text(h, a), Text(h, b)), Text(h, p));
        CommandLaws.ParseAddNormal(n);
        DispatchAddNormal(h, w2, AddNormalCommand(n), a, b, p);
      }
    }
  }

  /** A point announced while recording is added again at the same position on replay. */
  lemma PointAddedReplays<S>(h: Host<S>, w: Window<S>, p: Pos, w2: Window<S>)
    requires CleanNumbers(h) && ReadsBack(h)
    ensures var r := OnPointAdded(h, w, p);
            r.log != w.log ==>
              && Parse(Last(r.log)) == AddPoint(Some(Text(h, p)))
              && Dispatch(h, w2, Last(r.log)) == ReplayPointAt(h, w2, p)
  {
    CommandLaws.ParseAddPoint(Text(h, p));
    ResolveText(h, p);
  }

  /** Recorded labels, file loads and file saves replay with the same text and path. */
  lemma TextCommandsReplay<S>(h: Host<S>, w2: Window<S>, text: string, path: string)
    ensures Dispatch(h, w2, SetLabelCommand(text)).canvas == h.setLabelForSelection(w2.canvas, text).canvas
    ensures Dispatch(h, w2, OpenCommand(path)).canvas == h.loadFromFile(w2.canvas, path).canvas
    ensures Dispatch(h, w2, SaveCommand(path)) == w2
  {
    CommandLaws.ParseSetLabel(text);
    CommandLaws.ParseOpen(path);
    CommandLaws.ParseSave(path);
  }

  /** The fixed commands replay by running the intent that recorded them. */
  lemma FixedCommandsReplay<S>(h: Host<S>, w2: Window<S>)
    ensures Dispatch(h, w2, ExtendLinesCommand) == OnExtendLines(h, w2)
    ensures Dispatch(h, w2, DeleteAllCommand) == OnDeleteAll(h, w2)
    ensures Dispatch(h, w2, IntersectionsCommand) == OnIntersections(h, w2)
  {
    CommandLaws.ParseFixedCommands();
  }

  /** Replaying `a + b` replays `a`, then `b`. */
  lemma {:induction false} ReplayAllAppend<S>(h: Host<S>, w: Window<S>, a: seq<string>, b: seq<string>)
    ensures ReplayAll(h, w, a + b) == ReplayAll(h, ReplayAll(h, w, a), b)
    decreases |a|
  {
    if |a| == 0 {
      assert a + b == b;
    } else {
      assert (a + b)[1..] == a[1..] + b;
      ReplayAllAppend(h, Dispatch(h, w, a[0]), a[1..], b);
    }
  }

  /** A log of storable commands, saved to a macro file and opened again, comes back unchanged. */
  lemma MacroFileRestoresLog<S>(w: Window<S>, w2: Window<S>)
    requires forall i :: 0 <= i < |w.log| ==> Macro.Storable(w.log[i])
    ensures OnOpenMacro(w2, Some(Macro.SaveMacro(w.log))).log == w.log
  {
    Macro.SaveLoadMacro(w.log);
  }

  /** Clicking Record twice from a synchronised state restores the recording
      flag and leaves a log that was cleared by the first click. */
  lemma RecordTwice<S>(w: Window<S>)
    requires w.checked == w.recording && !w.recording
    ensures var r := ClickRecord(ClickRecord(w));
            !r.recording && !r.checked && r.log == [] && r.canvas == w.canvas
  {
  }
}
