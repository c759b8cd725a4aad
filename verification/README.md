# VibeGeometry construction model and macro recorder, in Dafny

VibeGeometry is a small Qt geometry editor. This project models its core in
two parts.

**The canvas construction model** (`canvaswidget.cpp`). It covers the ordered
list of labelled points, with coincident points refused. It covers the list
of lines, each an index pair, with a second line over the same unordered pair
refused. It covers the set of selected point indices and how a plain click or
a Ctrl-click changes it. It also covers the record-level load and save of
points and lines as a JSON document.

**The macro recorder of the main window** (`mainwindow.cpp`). Each user intent
(Connect, Extend, Circle, Delete, Delete All, Open, Save As, Normal, Intersect,
Label, and a point announced by the canvas) checks its guard and calls the
canvas. While recording is on, it appends one self-contained text command to
the log. Run turns recording off and replays the log in order: each command
is sent through the same dispatch the source uses. The model also covers
splitting a macro file into the log and joining the log back into a file.

Modules:

- `Common` (`common.dfy`): `Option`, and `Pos`, a point with integer coordinates.
- `Strings` (`strings.dfy`): the QString/QStringList operations the recorder
  uses. These are `split` (keeping or skipping empty parts), `join`, `mid`,
  `value`, `startsWith`, `trimmed` with the `QChar::isSpace` set, and the
  case-insensitive `.json` suffix test.
- `Construction` (`construction.dfy`): points, lines, the selection, and what
  gets painted for a line.
- `Persistence` (`persistence.dfy`): a parsed JSON value, plus load and save
  at the level of records.
- `Commands` (`commands.dfy`): the writers for the command text and the
  replay parsers, with `Parse` deciding the dispatch branch.
- `CommandLaws` (`command_laws.dfy`): round trips between the writers and the
  parsers.
- `Macro` (`macro.dfy`): loading and saving macro files.
- `Recorder` (`recorder.dfy`): the window state, the intents, replay and Run.

The main window calls canvas methods that `canvaswidget.cpp` does not define,
such as `selectedPointsOrdered`, `addCircle` and `selectLineByEndpoints`.
`Recorder` takes them as the fields of a `Host<S>` record: total functions
over an abstract canvas state `S`, with uninterpreted results. Three more
fields stand in for the number handling: `format` for `arg(v, 0, 'f', 8)`,
`parse` for `toDouble`, and `hypot` for `std::hypot`. Two predicates say what
the replay properties need from these functions:

- `CleanNumbers`: a formatted number contains none of the separators
  `, | # ;`.
- `ReadsBack`: parsing a formatted number gives the number back.

Dialog answers are parameters of the intents: the chosen path, the label text,
and the text of the macro file.

Three behaviours of the code worth noting:

- Loading a document replaces the points and the lines but keeps the
  selection (`canvaswidget.cpp:194-216`). `Persistence.Load` keeps it too.
- `addLineBetweenSelected` returns early when `a == b`
  (`canvaswidget.cpp:58`). That branch is unreachable: the two indices are the
  two smallest elements of a set, so `a < b` (`Construction.SmallestTwo`).
- A line whose indices are non-negative but point beyond the point list is
  loaded and kept. Painting then skips it (`Persistence.OutOfRangeLineKept`).

## Model

| member | source | states |
|---|---|---|
| Construction.HasPoint | canvaswidget.cpp:33-40 | finds a point iff some stored point coincides with the query on both coordinates |
| Construction.AddPoint | canvaswidget.cpp:23-31 | succeeds iff no stored point coincides; on failure nothing changes; on success exactly one entry (position, label) is appended after the unchanged old points; lines and selection untouched |
| Construction.AddPointKeepsApart | canvaswidget.cpp:23-31 | adding points preserves the invariant that no point coincides with an earlier one |
| Construction.AddPointTwice | canvaswidget.cpp:23-40 | with a reflexive comparison, adding the same position a second time fails and leaves the canvas as the first call left it |
| Construction.Least | canvaswidget.cpp:54-56 | the smallest selected index exists and is in the set |
| Construction.SmallestTwo | canvaswidget.cpp:54-58 | the first two sorted selected indices are both selected, strictly increasing, and every other selected index is at least the second |
| Construction.AddLineBetweenSelected | canvaswidget.cpp:50-70 | fails with fewer than two selected points; otherwise succeeds iff the two smallest selected indices are not already joined in either order; on success exactly one line (a < b, both selected, b next after a) is appended; points and selection unchanged |
| Construction.AddLineKeepsPairsDistinct | canvaswidget.cpp:60-66 | connecting never creates a second line over the same unordered pair |
| Construction.Click | canvaswidget.cpp:159-172 | a plain click on a point selects only it; a Ctrl-click toggles it (symmetric difference); a plain click on nothing clears; a Ctrl-click on nothing keeps the selection |
| Construction.CtrlClickTwice | canvaswidget.cpp:160-165 | two Ctrl-clicks on the same point restore the selection |
| Construction.MousePress | canvaswidget.cpp:134-175 | a mouse press keeps the points and lines and sets the selection to the `Click` transition of the old selection for the hit and the Ctrl state; a Ctrl-press on nothing changes nothing |
| Construction.PointCount | canvaswidget.cpp:42-44 | the number of stored points |
| Construction.SelectedCount | canvaswidget.cpp:46-48 | the number of selected point indices |
| Construction.OperationsKeepConsistent | canvaswidget.cpp:23-70 | adding a point, connecting, and clicking on an existing point keep every selected index and line end within the point list |
| Construction.DrawnSegments | canvaswidget.cpp:109-114 | at most one segment per line; every line is drawn when all ends are in range and none when no line is |
| Construction.DrawnSegmentsOne | canvaswidget.cpp:109-114 | a line is painted from the position of its first end to that of its second exactly when both ends index points |
| Construction.DrawnSegmentsAppend | canvaswidget.cpp:109-114 | lines are painted one after the other, in order |
| Persistence.DefaultLabel | canvaswidget.cpp:203-204 | an empty label becomes "P" and a non-empty label is kept |
| Persistence.LoadPoints | canvaswidget.cpp:197-206 | at most one point per array entry, every label non-empty, non-objects skipped |
| Persistence.LoadLines | canvaswidget.cpp:207-216 | at most one line per array entry; every kept line has non-negative `int` ends |
| Persistence.Load | canvaswidget.cpp:190-216 | a document that is not an object changes nothing; an object replaces points and lines and keeps the selection |
| Persistence.LoadPointsOne | canvaswidget.cpp:197-206 | one entry of the points array: an object becomes one point with its x, y and label read, anything else is skipped |
| Persistence.LoadPointsAppend | canvaswidget.cpp:197-206 | the entries are read in order: the points of `a + b` are those of `a` followed by those of `b` |
| Persistence.LoadLinesOne | canvaswidget.cpp:207-216 | one entry of the lines array: an object whose ends both read as non-negative `int`s becomes that line, anything else is dropped |
| Persistence.LoadLinesAppend | canvaswidget.cpp:207-216 | the entries are read in order: the lines of `a + b` are those of `a` followed by those of `b` |
| Persistence.LoadReplaces | canvaswidget.cpp:194-216 | loading an object replaces both lists: the points and lines loaded do not depend on the canvas loaded into |
| Persistence.Save | canvaswidget.cpp:218-240 | the saved document holds one record per point and per line, in order; what it contains is stated by the load laws above |
| Persistence.LoadSavedPoints | canvaswidget.cpp:197-206 | loading saved points returns the same positions in order, with empty labels turned into "P"; see also canvaswidget.cpp:223-230 |
| Persistence.LoadSavedLines | canvaswidget.cpp:207-216 | loading saved lines with non-negative `int` ends returns exactly those lines; see also canvaswidget.cpp:231-237 |
| Persistence.SaveLoadRoundTrip | canvaswidget.cpp:177-249 | save then load reproduces lines, point positions and count, labels up to the "P" default, and keeps the current selection |
| Persistence.SaveLoadIdentity | canvaswidget.cpp:177-249 | with no empty label, save then load is the identity on points and lines |
| Persistence.OutOfRangeLineKept | canvaswidget.cpp:110 | a line whose end lies beyond the loaded points is kept, and nothing is painted for it; see also canvaswidget.cpp:211-215 |
| Strings.Split | mainwindow.cpp:339 | `split` always gives at least one piece and no piece contains the separator |
| Strings.SkipEmpty | mainwindow.cpp:352 | `SkipEmptyParts` keeps only non-empty pieces, never more than there were |
| Strings.SkipEmptyOne | mainwindow.cpp:352 | a single piece is kept exactly when it is non-empty |
| Strings.SkipEmptyAppend | mainwindow.cpp:352 | pieces are filtered one by one, in order: the kept pieces of `a + b` are those of `a` followed by those of `b` |
| Strings.JoinSplit | mainwindow.cpp:339 | joining the pieces of a split restores the string |
| Strings.SplitJoin | mainwindow.cpp:176 | splitting a join of separator-free pieces restores the pieces; see also mainwindow.cpp:339 |
| Strings.Trim | mainwindow.cpp:275 | `trimmed` yields a string with no leading or trailing white space, no longer than the input |
| Strings.TrimIsSlice | mainwindow.cpp:275 | the trimmed line is a slice of the line, and everything cut off at either end is white space |
| Strings.TrimKeeps | mainwindow.cpp:275 | every character of a trimmed line occurs in the line read, so a newline-free line stays newline-free |
| Strings.TrimOfTrimmed | mainwindow.cpp:275 | trimming an already trimmed string changes nothing |
| Commands.PointOf | mainwindow.cpp:341-347 | the first two comma-separated tokens of a point, "" for a missing one; round trip in `CommandLaws.PointRoundTrip` |
| Commands.SegmentOf | mainwindow.cpp:361-364 | a segment only from exactly two bar-separated parts; round trip in `CommandLaws.SegmentRoundTrip` |
| Commands.CircleOf | mainwindow.cpp:383-389 | a circle only from exactly three comma-separated tokens; round trip in `CommandLaws.CircleRoundTrip` |
| Commands.FieldItems | mainwindow.cpp:350-396 | a field yields points, lines, extended lines or circles by its tag, and nothing for an unknown tag; round trips in the field laws below |
| Commands.DeleteItems | mainwindow.cpp:337-397 | the items named by every ';'-part after the first; round trip in `CommandLaws.DeleteRoundTrip` |
| Commands.DeleteFields | mainwindow.cpp:171-206 | the P, L, E and C fields in that order, each present only when it names something; read back by `CommandLaws.FieldsRoundTrip` |
| Commands.DeleteCommand | mainwindow.cpp:169-211 | `deleteSelected`, followed by `;` and the fields when there are any; read back by `CommandLaws.DeleteRoundTrip` |
| Commands.Parse | mainwindow.cpp:333-514 | the replay dispatch, trying the exact commands and the prefixes in the source's order; each writer's text reaches its own branch by the `CommandLaws.Parse...` lemmas |
| CommandLaws.PointRoundTrip | mainwindow.cpp:175 | a point written as `x,y` reads back as the same tokens; see also mainwindow.cpp:341-347 |
| CommandLaws.SegmentRoundTrip | mainwindow.cpp:181-185 | a segment written as two points joined by a bar reads back as the same segment; see also mainwindow.cpp:361-364 |
| CommandLaws.CircleRoundTrip | mainwindow.cpp:201-204 | a circle written as `x,y,r` reads back as the same three tokens; see also mainwindow.cpp:383-389 |
| CommandLaws.PointItemsRoundTrip | mainwindow.cpp:351-357 | the pieces of written points parse back, one point item each, in order; see also mainwindow.cpp:175 |
| CommandLaws.PointFieldRoundTrip | mainwindow.cpp:173-177 | the `P=` field reads back as the same points in order; see also mainwindow.cpp:351-357 |
| CommandLaws.SegmentItemsRoundTrip | mainwindow.cpp:181-185 | the written segments parse back, in order, as line or extended-line items; see also mainwindow.cpp:360-367 |
| CommandLaws.CircleItemsRoundTrip | mainwindow.cpp:201-204 | the written circles parse back, in order, as circle items; see also mainwindow.cpp:382-393 |
| CommandLaws.SegmentBodyRoundTrip | mainwindow.cpp:358-368 | the '#'-joined text of one or more written segments splits, skipping empty pieces, and parses back to the same segments in order; see also mainwindow.cpp:179-187 |
| CommandLaws.CircleBodyRoundTrip | mainwindow.cpp:380-395 | the '#'-joined text of one or more written circles splits, skipping empty pieces, and parses back to the same circles in order; see also mainwindow.cpp:199-206 |
| CommandLaws.LineFieldRoundTrip | mainwindow.cpp:179-187 | the `L=` field reads back as the same lines in order; see also mainwindow.cpp:358-368 |
| CommandLaws.ExtendedFieldRoundTrip | mainwindow.cpp:189-197 | the `E=` field reads back as the same extended lines in order; see also mainwindow.cpp:369-379 |
| CommandLaws.CircleFieldRoundTrip | mainwindow.cpp:199-206 | the `C=` field reads back as the same circles in order; see also mainwindow.cpp:380-395 |
| CommandLaws.FieldsItemsAppend | mainwindow.cpp:349-397 | fields are processed one after the other: the items of a concatenation are the concatenated items |
| CommandLaws.FieldsAvoidSemicolon | mainwindow.cpp:173-206 | no written field contains ';' |
| CommandLaws.FieldsRoundTrip | mainwindow.cpp:171-206 | the written fields yield the selection's points, lines, extended lines and circles, in that order; see also mainwindow.cpp:349-397 |
| CommandLaws.DeleteParts | mainwindow.cpp:207-210 | the ';'-parts after the first of a written `deleteSelected` command are exactly its fields; see also mainwindow.cpp:339 |
| CommandLaws.DeleteRoundTrip | mainwindow.cpp:169-211 | the replay parser recovers from a written `deleteSelected` command exactly the recorded items; see also mainwindow.cpp:337-397 |
| CommandLaws.ParseFixedCommands | mainwindow.cpp:333-404 | `extendLines`, `deleteAll` and `intersections` reach their own branches |
| CommandLaws.ParseDelete | mainwindow.cpp:337 | a written `deleteSelected` command reaches the delete branch with its items |
| CommandLaws.ParseAddPoint | mainwindow.cpp:405-416 | a recorded `addPoint:` reaches the addPoint branch with the same coordinates; see also mainwindow.cpp:579-582 |
| CommandLaws.ParseSetLabel | mainwindow.cpp:417-419 | a recorded `setLabel:` reaches the label branch with the same text; see also mainwindow.cpp:574 |
| CommandLaws.ParseOpen | mainwindow.cpp:420-423 | a recorded `open:` reaches the open branch with the same path; see also mainwindow.cpp:240 |
| CommandLaws.ParseSave | mainwindow.cpp:424-426 | a recorded `save:` reaches the save branch with the same path; see also mainwindow.cpp:259 |
| CommandLaws.ParseAddNormal | mainwindow.cpp:427-455 | a recorded `addNormal:` reaches the normal branch with the same line and point; see also mainwindow.cpp:543-550 |
| CommandLaws.NormalArgsRoundTrip | mainwindow.cpp:428-455 | the payload of a recorded normal, a segment and a point separated by ';', reads back as the same line and point |
| CommandLaws.ParseAddLine | mainwindow.cpp:456-488 | a recorded `addLine:` reaches the line branch with the same end points; see also mainwindow.cpp:118-122 |
| CommandLaws.ParseAddCircle | mainwindow.cpp:489-514 | a recorded `addCircle:` reaches the circle branch with the same centre and edge point; see also mainwindow.cpp:158-163 |
| Macro.KeepCommands | mainwindow.cpp:273-279 | reading the lines never yields more commands than lines; what it yields is stated by the two laws below |
| Macro.KeepCommandsOne | mainwindow.cpp:275-278 | one line yields its trimmed text, or nothing when that is empty |
| Macro.KeepCommandsAppend | mainwindow.cpp:273-279 | lines are read one after the other: the commands of `a + b` are those of `a` followed by those of `b` |
| Macro.KeptAreStorable | mainwindow.cpp:273-279 | every line kept from newline-free lines is non-empty, trimmed and newline-free |
| Macro.KeepStorableHead | mainwindow.cpp:274-278 | a line that is already non-empty and trimmed is kept exactly as it is, ahead of what the rest of the file yields |
| Macro.LoadMacro | mainwindow.cpp:263-283 | every command loaded from a macro file is storable: non-empty, trimmed, newline-free |
| Macro.LoadMacroLines | mainwindow.cpp:273-279 | a file made of newline-free lines loads as the commands kept from those lines, in order |
| Macro.SaveMacro | mainwindow.cpp:295-298 | a non-empty log is written as text ending in a newline |
| Macro.SaveLoadMacro | mainwindow.cpp:271-297 | a log of storable commands, saved and loaded, is unchanged |
| Macro.LoadSaveLoad | mainwindow.cpp:271-297 | a loaded log, saved and loaded again, is unchanged |
| Recorder.Sort | mainwindow.cpp:112-113 | `std::sort` gives an ascending permutation of the indices; see also mainwindow.cpp:148-149 |
| Recorder.SortTwo | mainwindow.cpp:112-113 | two indices sort to the smaller followed by the larger |
| Recorder.ConnectEnds | mainwindow.cpp:111-118 | ends are found exactly when two points are ordered or two are selected; with at least two in selection order they are the first two selected; otherwise they are the points at the two smallest selected indices, ascending (for exactly two, the smaller then the larger) |
| Recorder.OnAddLine | mainwindow.cpp:100-126 | fewer than two selected points changes nothing; a refused connection changes only the canvas; a successful one takes the canvas and the counter from the canvas and, while recording with two ends found, appends `addLine:` with those ends, and nothing otherwise |
| Recorder.OnExtendLines | mainwindow.cpp:128-138 | no selected line changes nothing; otherwise `extendLines` is appended while recording whether or not anything was extended |
| Recorder.OnAddCircle | mainwindow.cpp:140-166 | anything but exactly two selected points changes nothing, and so does a radius that is not positive; with a positive radius the circle is added at the centre with that radius, the counter is reset from the new canvas, and `addCircle:` with the centre and edge point is appended exactly when recording |
| Recorder.CircleEnds | mainwindow.cpp:145-151 | with two points in selection order, the first selected is the centre and the second the edge; otherwise the centre and the edge are the points at the smaller and the larger selected index |
| Recorder.OnDelete | mainwindow.cpp:168-219 | the command is built from the selection before the deletion; it is appended only when the deletion succeeded and recording is on |
| Recorder.OnDeleteAll | mainwindow.cpp:221-225 | no guard: the canvas is cleared and `deleteAll` is appended while recording |
| Recorder.OnOpenFile | mainwindow.cpp:227-241 | a cancelled dialog changes nothing; otherwise the canvas is the one the load left; a failed load appends nothing; a successful one resets the counter and appends `open:path` exactly when recording |
| Recorder.SavePath | mainwindow.cpp:254-256 | the saved path ends in ".json" ignoring case; a name that already does is kept, and any other name gets ".json" appended |
| Recorder.OnSaveAs | mainwindow.cpp:243-261 | a cancelled dialog changes nothing; the canvas and counter are unchanged; `save:path` is appended exactly when recording and the save succeeded |
| Recorder.OnIntersect | mainwindow.cpp:525-554 | anything but exactly one selected line and one selected point, or a negative index, changes nothing; a refused normal changes only the canvas; a successful one takes the canvas and counter and, while recording with the line's ends found, appends `addNormal:` with those ends and the point |
| Recorder.OnIntersections | mainwindow.cpp:556-560 | no guard: the intersections are recomputed and `intersections` is appended while recording |
| Recorder.OnEditLabel | mainwindow.cpp:562-577 | anything but exactly one selected object, or a cancelled dialog, changes nothing; otherwise the canvas is the one the update left, and `setLabel:text` is appended exactly when recording and the update succeeded |
| Recorder.OnPointAdded | mainwindow.cpp:579-582 | not recording changes nothing; recording appends `addPoint:x,y` for the announced point |
| Recorder.OnOpenMacro | mainwindow.cpp:263-283 | a cancelled or unreadable file changes nothing; otherwise only the log changes, to the file's storable commands, and the recording flag is kept |
| Recorder.OpenMacroKeepsLines | mainwindow.cpp:273-281 | opening a file of newline-free lines makes the log the trimmed, non-empty lines in file order |
| Recorder.ClickRecord | mainwindow.cpp:303-312 | a click flips the button, recording follows the button, starting to record clears the log, stopping keeps it |
| Recorder.Dispatch | mainwindow.cpp:331-514 | replaying one command never changes the recording flag or the button, never appends while not recording, and ignores a command that matches no branch |
| Recorder.ReplayDelete | mainwindow.cpp:337-398 | replaying a deletion never touches the log or the recording flag |
| Recorder.ReplayLineAt | mainwindow.cpp:471-486 | replaying a connection never touches the log or the recording flag |
| Recorder.ReplayCircleAt | mainwindow.cpp:504-512 | replaying a circle keeps the flags and appends nothing while not recording |
| Recorder.ReplayNormalAt | mainwindow.cpp:445-453 | replaying a normal keeps the flags and appends nothing while not recording |
| Recorder.ReplayAll | mainwindow.cpp:331-521 | replaying a log while not recording leaves the log and the flags unchanged |
| Recorder.ReplayAllAppend | mainwindow.cpp:331-521 | commands are replayed in order, each once: replaying `a + b` replays `a`, then `b` |
| Recorder.Run | mainwindow.cpp:314-523 | Run always ends with recording off (the button unchecked if it was on), leaves the log unchanged, runs nothing for an empty log, and otherwise dispatches every logged command in order |
| Recorder.ReselectSelection | mainwindow.cpp:169-206 | with numbers that read back, the items of a recorded selection reselect by value every selected point, line, extended line and circle; see also mainwindow.cpp:349-397 |
| Recorder.DeleteReplays | mainwindow.cpp:168-219 | a recorded deletion parses to the selection's items; replaying it clears the selection, reselects what was selected when it was recorded, and deletes; see also mainwindow.cpp:337-398 |
| Recorder.ConnectReplays | mainwindow.cpp:108-124 | a recorded connection replays as selecting (adding if needed) the same two positions and connecting them; see also mainwindow.cpp:456-488 |
| Recorder.CircleReplays | mainwindow.cpp:145-163 | a recorded circle replays by selecting the same centre and edge point and running the Circle intent; see also mainwindow.cpp:489-514 |
| Recorder.NormalReplays | mainwindow.cpp:537-552 | a recorded normal replays on the line's end points through the same point; see also mainwindow.cpp:427-455 |
| Recorder.DispatchAddLine | mainwindow.cpp:456-488 | an `addLine:` command whose tokens read back replays as the line between the same two positions |
| Recorder.DispatchAddCircle | mainwindow.cpp:489-514 | an `addCircle:` command whose tokens read back replays as the circle with the same centre and edge point |
| Recorder.DispatchAddNormal | mainwindow.cpp:427-455 | an `addNormal:` command whose tokens read back replays as the normal on the same line through the same point |
| Recorder.PointAddedReplays | mainwindow.cpp:579-582 | a point announced while recording is added again, selected, at the same position on replay; see also mainwindow.cpp:405-416 |
| Recorder.TextCommandsReplay | mainwindow.cpp:417-426 | recorded labels, loads and saves replay with the same text or path |
| Recorder.FixedCommandsReplay | mainwindow.cpp:333-404 | `extendLines`, `deleteAll` and `intersections` replay by running the intent that recorded them |
| Recorder.MacroFileRestoresLog | mainwindow.cpp:263-301 | a log of storable commands (non-empty, trimmed, newline-free), saved to a macro file and opened again, is restored |
| Recorder.RecordTwice | mainwindow.cpp:303-312 | from a stopped, synchronised state, two clicks on Record end stopped again with the button unchecked and the log cleared by the first click |

## Left out

- Painting: the axes, ticks, colours, label placement and scaling (`canvaswidget.cpp:72-132`). Only which segments are painted for the lines is modelled.
- The screen-space hit test of a mouse press (`canvaswidget.cpp:135-158`). It is floating-point geometry, so a press arrives as the index of the point it hit, if any.
- qFuzzyCompare: the comparison is a parameter of `Construction`. Only a reflexive comparison is assumed, and only where stated.
- Floating point: coordinates and JSON numbers are integers. Non-integral numbers and `toDouble` on non-numeric JSON other than the 0 default are not modelled.
- Number formatting with eight decimals, `toDouble` and `std::hypot` are the `format`, `parse` and `hypot` fields of `Host`. Their exact behaviour is not modelled.
- JSON text, `QJsonDocument::fromJson`, file existence, opening, writing and directory creation (`canvaswidget.cpp:178-190`, `canvaswidget.cpp:220-222`, `canvaswidget.cpp:241-248`). Only the parsed document is modelled.
- Saving after `addPoint` and `addLineBetweenSelected` (`canvaswidget.cpp:28`, `canvaswidget.cpp:67`) writes the file. It does not change the model's state.
- The file dialogs, message boxes, button text and icons, printing, and the menus and layout built in the constructor.
- The one-second pause between replayed commands (`mainwindow.cpp:515-520`).
- Recorder.Run: the pause runs a nested event loop, so Record, Open Macro or Run can be clicked while a replay is in progress and clear or replace the log it is walking. The model has no such re-entry; its promise that Run leaves the log unchanged holds only when nothing is clicked during the replay.
- `Host` also stands for `addLineBetweenSelected` and `pointCount`, which `canvaswidget.cpp` does define (`canvaswidget.cpp:42-44`, `canvaswidget.cpp:50-70`) and `Construction` models. No lemma connects the `Host` fields to `Construction`; the recorder's properties hold for any canvas behaviour.
- `Host.parse` is unconstrained on the empty string, although `toDouble` always fails on it. No property depends on it: the replay lemmas use only `ReadsBack`, that formatted numbers parse back.
- UTF-8 decoding of macro file lines. A macro file is given as its text.
- Recorder.SavePath: the ".json" test ignores case for ASCII letters only, not with full Unicode case folding.
- Recorder.OnSaveAs: `saveToFile` is taken to leave the canvas unchanged. Any change it makes to the remembered storage path is not modelled.
- The fallback in `onRecordClicked` when the Record button does not exist. The button always exists once the window is built.
- Which canvas calls emit `pointAdded`. That happens in canvas code that is not part of this model, so a point announcement is modelled as its own event (`Recorder.OnPointAdded`).
- Recorder.ReselectSelection, Recorder.ConnectReplays, Recorder.CircleReplays, Recorder.NormalReplays, Recorder.PointAddedReplays: these assume numbers format without separators and read back exactly. With eight-decimal formatting of doubles, that holds only up to rounding.
