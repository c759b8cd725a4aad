/** The textual commands of the macro recorder: the writers that produce them
    while recording and the parsers that read them back during replay. Numbers
    appear as opaque tokens (the source formats doubles with eight decimals and
    reads them back with toDouble); a token is "clean" when it contains none of
    the separators the formats use. */
module Commands {
  import opened Common
  import opened Strings

  /** A number token with none of the separators ',', '|', '#' and ';'. */
  predicate Clean(t: string) {
    ',' !in t && '|' !in t && '#' !in t && ';' !in t
  }

  /** A point as two number tokens. */
  datatype PointText = PointText(x: string, y: string)

  /** A segment or line as the tokens of its two end points. */
  datatype SegmentText = SegmentText(a: PointText, b: PointText)

  /** A circle as the tokens of its centre and its radius. */
  datatype CircleText = CircleText(x: string, y: string, r: string)

  /** A normal request: the line it is normal to and the point it passes through. */
  datatype NormalText = NormalText(line: SegmentText, through: PointText)

  predicate CleanPoint(p: PointText) {
    Clean(p.x) && Clean(p.y)
  }

  predicate CleanSegment(s: SegmentText) {
    CleanPoint(s.a) && CleanPoint(s.b)
  }

  predicate CleanCircle(c: CircleText) {
    Clean(c.x) && Clean(c.y) && Clean(c.r)
  }

  /** One object named by a `deleteSelected` command, in the order replay selects them. */
  datatype Item =
    | PointItem(p: PointText)
    | LineItem(s: SegmentText)
    | ExtendedItem(s: SegmentText)
    | CircleItem(c: CircleText)

  // ---------------------------------------------------------------------------
  // Writers

  /** `x,y` */
  function PointStr(p: PointText): string {
    p.x + "," + p.y
  }

  /** `x,y|x,y` */
  function SegmentStr(s: SegmentText): string {
    PointStr(s.a) + "|" + PointStr(s.b)
  }

  /** `x,y,r` */
  function CircleStr(c: CircleText): string {
    c.x + "," + c.y + "," + c.r
  }

  function PointStrs(ps: seq<PointText>): (r: seq<string>)
    ensures |r| == |ps| && forall i :: 0 <= i < |ps| ==> r[i] == PointStr(ps[i])
    decreases |ps|
  {
    if |ps| == 0 then [] else [PointStr(ps[0])] + PointStrs(ps[1..])
  }

  function SegmentStrs(ss: seq<SegmentText>): (r: seq<string>)
    ensures |r| == |ss| && forall i :: 0 <= i < |ss| ==> r[i] == SegmentStr(ss[i])
    decreases |ss|
  {
    if |ss| == 0 then [] else [SegmentStr(ss[0])] + SegmentStrs(ss[1..])
  }

  function CircleStrs(cs: seq<CircleText>): (r: seq<string>)
    ensures |r| == |cs| && forall i :: 0 <= i < |cs| ==> r[i] == CircleStr(cs[i])
    decreases |cs|
  {
    if |cs| == 0 then [] else [CircleStr(cs[0])] + CircleStrs(cs[1..])
  }

  /** The optional fields of a `deleteSelected` command, in the order P, L, E, C;
      a field is present only when it names at least one object. */
  function DeleteFields(ps: seq<PointText>, ls: seq<SegmentText>, es: seq<SegmentText>, cs: seq<CircleText>): seq<string> {
    (if |ps| > 0 then ["P=" + Join(PointStrs(ps), '|')] else [])
    + (if |ls| > 0 then ["L=" + Join(SegmentStrs(ls), '#')] else [])
    + (if |es| > 0 then ["E=" + Join(SegmentStrs(es), '#')] else [])
    + (if |cs| > 0 then ["C=" + Join(CircleStrs(cs), '#')] else [])
  }

  const DeleteSelectedPrefix := "deleteSelected"

  /** The command recorded for deleting the selected points `ps`, lines `ls`,
      extended lines `es` and circles `cs`. */
  function DeleteCommand(ps: seq<PointText>, ls: seq<SegmentText>, es: seq<SegmentText>, cs: seq<CircleText>): string {
    var fields := DeleteFields(ps, ls, es, cs);
    DeleteSelectedPrefix + (if |fields| > 0 then ";" + Join(fields, ';') else "")
  }

  const ExtendLinesCommand := "extendLines"
  const DeleteAllCommand := "deleteAll"
  const IntersectionsCommand := "intersections"
  const AddCircleBare := "addCircle"
  const AddNormalBare := "addNormal"
  const AddPointPrefix := "addPoint:"
  const SetLabelPrefix := "setLabel:"
  const OpenPrefix := "open:"
  const SavePrefix := "save:"
  const AddNormalPrefix := "addNormal:"
  const AddLinePrefix := "addLine:"
  const AddCirclePrefix := "addCircle:"

  function AddPointCommand(p: PointText): string {
    AddPointPrefix + PointStr(p)
  }

  function AddLineCommand(s: SegmentText): string {
    AddLinePrefix + SegmentStr(s)
  }

  /** `addCircle:` followed by the centre and the edge point. */
  function AddCircleCommand(s: SegmentText): string {
    AddCirclePrefix + SegmentStr(s)
  }

  function AddNormalCommand(n: NormalText): string {
    AddNormalPrefix + SegmentStr(n.line) + ";" + PointStr(n.through)
  }

  function SetLabelCommand(text: string): string {
    SetLabelPrefix + text
  }

  function OpenCommand(path: string): string {
    OpenPrefix + path
  }

  function SaveCommand(path: string): string {
    SavePrefix + path
  }

  // ---------------------------------------------------------------------------
  // Parsers

  /** A point from `x,y`: the first two comma-separated tokens, "" for a missing one,
      further tokens ignored. */
  function PointOf(s: string): PointText {
    var cs := Split(s, ',');
    PointText(At(cs, 0), At(cs, 1))
  }

  /** A segment from `x,y|x,y`; anything that is not exactly two '|'-separated parts gives none. */
  function SegmentOf(s: string): Option<SegmentText> {
    var pair := Split(s, '|');
    if |pair| == 2 then Some(SegmentText(PointOf(pair[0]), PointOf(pair[1]))) else None
  }

  /** A circle from `x,y,r`; anything that is not exactly three tokens gives none. */
  function CircleOf(s: string): Option<CircleText> {
    var parts := Split(s, ',');
    if |parts| == 3 then Some(CircleText(parts[0], parts[1], parts[2])) else None
  }

  function PointItemsOf(items: seq<string>): (r: seq<Item>)
    ensures |r| == |items| && forall i :: 0 <= i < |items| ==> r[i] == PointItem(PointOf(items[i]))
    decreases |items|
  {
    if |items| == 0 then [] else [PointItem(PointOf(items[0]))] + PointItemsOf(items[1..])
  }

  /** The segment items of a field, as lines or as extended lines; malformed items are skipped. */
  function SegmentItemsOf(items: seq<string>, extended: bool): (r: seq<Item>)
    ensures |r| <= |items|
    ensures (forall i :: 0 <= i < |items| ==> SegmentOf(items[i]).Some?) ==>
              |r| == |items|
              && forall i :: 0 <= i < |items| ==> r[i] == SegmentItem(SegmentOf(items[i]).value, extended)
    ensures (forall i :: 0 <= i < |items| ==> SegmentOf(items[i]).None?) ==> r == []
    decreases |items|
  {
    if |items| == 0 then []
    else
      var rest := SegmentItemsOf(items[1..], extended);
      assert forall i :: 1 <= i < |items| ==> items[1..][i - 1] == items[i];
      match SegmentOf(items[0])
      case Some(s) => [SegmentItem(s, extended)] + rest
      case None => rest
  }

  /** A segment as a line item, or as an extended-line item. */
  function SegmentItem(s: SegmentText, extended: bool): Item {
    if extended then ExtendedItem(s) else LineItem(s)
  }

  function CircleItemsOf(items: seq<string>): (r: seq<Item>)
    ensures |r| <= |items|
    ensures (forall i :: 0 <= i < |items| ==> CircleOf(items[i]).Some?) ==>
              |r| == |items|
              && forall i :: 0 <= i < |items| ==> r[i] == CircleItem(CircleOf(items[i]).value)
    ensures (forall i :: 0 <= i < |items| ==> CircleOf(items[i]).None?) ==> r == []
    decreases |items|
  {
    if |items| == 0 then []
    else
      var rest := CircleItemsOf(items[1..]);
      assert forall i :: 1 <= i < |items| ==> items[1..][i - 1] == items[i];
      match CircleOf(items[0])
      case Some(c) => [CircleItem(c)] + rest
      case None => rest
  }

  /** The items of one field of a `deleteSelected` command; a field with an unknown tag yields none. */
  function FieldItems(field: string): seq<Item> {
    if StartsWith(field, "P=") then PointItemsOf(SkipEmpty(Split(field[2..], '|')))
    else if StartsWith(field, "L=") then SegmentItemsOf(SkipEmpty(Split(field[2..], '#')), false)
    else if StartsWith(field, "E=") then SegmentItemsOf(SkipEmpty(Split(field[2..], '#')), true)
    else if StartsWith(field, "C=") then CircleItemsOf(SkipEmpty(Split(field[2..], '#')))
    else []
  }

  /** The items of the fields, field after field. */
  function FieldsItems(fields: seq<string>): seq<Item>
    decreases |fields|
  {
    if |fields| == 0 then [] else FieldItems(fields[0]) + FieldsItems(fields[1..])
  }

  /** The items a `deleteSelected` command names: every ';'-separated field after the first part. */
  function DeleteItems(cmd: string): seq<Item> {
    FieldsItems(Split(cmd, ';')[1..])
  }

  /** The point of an `addPoint:` payload: exactly two comma-separated tokens. */
  function AddPointArgs(coords: string): Option<PointText> {
    var parts := Split(coords, ',');
    if |parts| == 2 then Some(PointText(parts[0], parts[1])) else None
  }

  /** The line and point of an `addNormal:` payload `x,y|x,y;x,y`. */
  function NormalArgs(payload: string): Option<NormalText> {
    var parts := Split(payload, ';');
    if |parts| == 2 then
      match SegmentOf(parts[0])
      case Some(s) => Some(NormalText(s, PointOf(parts[1])))
      case None => None
    else None
  }

  /** What replay does with a command, decided by the dispatch branches in order. */
  datatype Command =
    | ExtendLines
    | AddCircleSelected
    | DeleteSelected(items: seq<Item>)
    | DeleteAll
    | AddNormalSelected
    | Intersections
    | AddPoint(at: Option<PointText>)
    | SetLabel(text: string)
    | Open(path: string)
    | Save(path: string)
    | AddNormal(normal: Option<NormalText>)
    | AddLine(line: Option<SegmentText>)
    | AddCircle(circle: Option<SegmentText>)
    | Ignored

  /** The replay dispatch: exact matches and prefix matches, tried in the source's order. */
  function Parse(cmd: string): Command {
    if cmd == ExtendLinesCommand then ExtendLines
    else if cmd == AddCircleBare then AddCircleSelected
    else if StartsWith(cmd, DeleteSelectedPrefix) then DeleteSelected(DeleteItems(cmd))
    else if cmd == DeleteAllCommand then DeleteAll
    else if cmd == AddNormalBare then AddNormalSelected
    else if cmd == IntersectionsCommand then Intersections
    else if StartsWith(cmd, AddPointPrefix) then AddPoint(AddPointArgs(Mid(cmd, |AddPointPrefix|)))
    else if StartsWith(cmd, SetLabelPrefix) then SetLabel(Mid(cmd, |SetLabelPrefix|))
    else if StartsWith(cmd, OpenPrefix) then Open(Mid(cmd, |OpenPrefix|))
    else if StartsWith(cmd, SavePrefix) then Save(Mid(cmd, |SavePrefix|))
    else if StartsWith(cmd, AddNormalPrefix) then AddNormal(NormalArgs(Mid(cmd, |AddNormalPrefix|)))
    else if StartsWith(cmd, AddLinePrefix) then AddLine(SegmentOf(Mid(cmd, |AddLinePrefix|)))
    else if StartsWith(cmd, AddCirclePrefix) then AddCircle(SegmentOf(Mid(cmd, |AddCirclePrefix|)))
    else Ignored
  }
}
