/** The record-level part of loading and saving the canvas. A document is a
    parsed JSON value; the JSON text, the file and the directory handling are
    not modelled. Numbers are integers, like the model's coordinates. */
module Persistence {
  import opened Common
  import opened Construction

  /** A parsed JSON value (QJsonValue). A missing key reads as `JNull`. */
  datatype Json =
    | JNull
    | JBool(b: bool)
    | JNum(n: int)
    | JStr(s: string)
    | JArr(items: seq<Json>)
    | JObj(fields: map<string, Json>)

  /** QJsonObject::value: the value stored under `key`, or `JNull` when there is none. */
  function Value(fields: map<string, Json>, key: string): Json {
    if key in fields then fields[key] else JNull
  }

  /** QJsonValue::toDouble(): the number, or 0 for anything else. */
  function ToNumber(v: Json): int {
    if v.JNum? then v.n else 0
  }

  /** The range of a C++ `int`. */
  predicate IsInt32(n: int) {
    -0x8000_0000 <= n < 0x8000_0000
  }

  /** QJsonValue::toInt(default): the number when it fits an `int`, else `default`. */
  function ToInt(v: Json, default: int): int {
    if v.JNum? && IsInt32(v.n) then v.n else default
  }

  /** QJsonValue::toString(): the string, or "" for anything else. */
  function ToText(v: Json): string {
    if v.JStr? then v.s else ""
  }

  /** QJsonValue::toArray(): the elements, or none for anything else. */
  function ToArray(v: Json): seq<Json> {
    if v.JArr? then v.items else []
  }

  /** The label a loaded point gets: an empty label becomes "P". */
  function DefaultLabel(name: string): (r: string)
    ensures r != ""
    ensures name != "" ==> r == name
    ensures name == "" ==> r == "P"
  {
    if name == "" then "P" else name
  }

  /** The point stored in one object of the "points" array. */
  function PointOf(fields: map<string, Json>): PointEntry {
    PointEntry(Pos(ToNumber(Value(fields, "x")), ToNumber(Value(fields, "y"))),
               DefaultLabel(ToText(Value(fields, "label"))))
  }

  /** The points of a "points" array, in order; entries that are not objects are skipped. */
  function LoadPoints(vs: seq<Json>): (points: seq<PointEntry>)
    ensures |points| <= |vs|
    ensures forall k :: 0 <= k < |points| ==> points[k].name != ""
    ensures (forall k :: 0 <= k < |vs| ==> !vs[k].JObj?) ==> points == []
    decreases |vs|
  {
    if |vs| == 0 then []
    else
      var rest := LoadPoints(vs[1..]);
      assert forall k :: 1 <= k < |vs| ==> vs[k] == vs[1..][k - 1];
      if vs[0].JObj? then [PointOf(vs[0].fields)] + rest else rest
  }

  /** The ends read from one object of the "lines" array; a missing or unusable index reads as -1. */
  function EndsOf(fields: map<string, Json>): (int, int) {
    (ToInt(Value(fields, "a"), -1), ToInt(Value(fields, "b"), -1))
  }

  /** The lines of a "lines" array, in order; entries that are not objects, and
      lines with a negative end, are dropped. Ends beyond the point list are kept. */
  function LoadLines(vs: seq<Json>): (lines: seq<Line>)
    ensures |lines| <= |vs|
    ensures forall k :: 0 <= k < |lines| ==> 0 <= lines[k].a && 0 <= lines[k].b
    ensures forall k :: 0 <= k < |lines| ==> IsInt32(lines[k].a) && IsInt32(lines[k].b)
    decreases |vs|
  {
    if |vs| == 0 then []
    else
      var rest := LoadLines(vs[1..]);
      if vs[0].JObj? then
        var (a, b) := EndsOf(vs[0].fields);
        if a >= 0 && b >= 0 then [Line(a, b)] + rest else rest
      else rest
  }

  /** Loads a document into the canvas: anything but an object leaves the canvas
      as it is; an object replaces the points and the lines. The selection is
      left as it is. */
  function Load(c: Canvas, doc: Json): (r: Canvas)
    ensures !doc.JObj? ==> r == c
    ensures doc.JObj? ==> r.selected == c.selected
    ensures doc.JObj? ==> forall k :: 0 <= k < |r.points| ==> r.points[k].name != ""
    ensures doc.JObj? ==> forall k :: 0 <= k < |r.lines| ==> 0 <= r.lines[k].a && 0 <= r.lines[k].b
  {
    match doc
    case JObj(root) =>
      c.(points := LoadPoints(ToArray(Value(root, "points"))),
         lines := LoadLines(ToArray(Value(root, "lines"))))
    case _ => c
  }

  /** One entry of the "points" array: an object becomes the point with its
      x, y and label read; anything else is skipped. */
  lemma LoadPointsOne(v: Json)
    ensures LoadPoints([v]) == (if v.JObj? then [PointOf(v.fields)] else [])
  {
    assert [v][1..] == [];
  }

  /** Entries are read one after the other, in order. */
  lemma {:induction false} LoadPointsAppend(a: seq<Json>, b: seq<Json>)
    ensures LoadPoints(a + b) == LoadPoints(a) + LoadPoints(b)
    decreases |a|
  {
    if |a| > 0 {
      assert (a + b)[1..] == a[1..] + b;
      assert (a + b)[0] == a[0];
      LoadPointsAppend(a[1..], b);
    } else {
      assert a + b == b;
    }
  }

  /** One entry of the "lines" array: an object whose two ends both read as
      non-negative `int`s becomes that line; anything else is dropped. */
  lemma LoadLinesOne(v: Json)
    ensures LoadLines([v]) == (if v.JObj? && EndsOf(v.fields).0 >= 0 && EndsOf(v.fields).1 >= 0
                               then [Line(EndsOf(v.fields).0, EndsOf(v.fields).1)] else [])
  {
    assert [v][1..] == [];
  }

  /** Entries are read one after the other, in order. */
  lemma {:induction false} LoadLinesAppend(a: seq<Json>, b: seq<Json>)
    ensures LoadLines(a + b) == LoadLines(a) + LoadLines(b)
    decreases |a|
  {
    if |a| > 0 {
      assert (a + b)[1..] == a[1..] + b;
      assert (a + b)[0] == a[0];
      LoadLinesAppend(a[1..], b);
    } else {
      assert a + b == b;
    }
  }

  /** Loading an object replaces both lists: the points and the lines loaded do
      not depend on what the canvas held before. */
  lemma LoadReplaces(c1: Canvas, c2: Canvas, doc: Json)
    requires doc.JObj?
    ensures Load(c1, doc).points == Load(c2, doc).points
    ensures Load(c1, doc).lines == Load(c2, doc).lines
  {
  }

  /** The object saved for one point. */
  function PointRecord(e: PointEntry): Json {
    JObj(map["x" := JNum(e.pos.x), "y" := JNum(e.pos.y), "label" := JStr(e.name)])
  }

  /** The object saved for one line. */
  function LineRecord(l: Line): Json {
    JObj(map["a" := JNum(l.a), "b" := JNum(l.b)])
  }

  /** The saved objects of `points`, in order. */
  function PointRecords(points: seq<PointEntry>): (vs: seq<Json>)
    ensures |vs| == |points|
    decreases |points|
  {
    if |points| == 0 then [] else [PointRecord(points[0])] + PointRecords(points[1..])
  }

  /** The saved objects of `lines`, in order. */
  function LineRecords(lines: seq<Line>): (vs: seq<Json>)
    ensures |vs| == |lines|
    decreases |lines|
  {
    if |lines| == 0 then [] else [LineRecord(lines[0])] + LineRecords(lines[1..])
  }

  /** The document saved for the canvas: its points and its lines. The selection is not saved. */
  function Save(c: Canvas): Json {
    JObj(map["points" := JArr(PointRecords(c.points)), "lines" := JArr(LineRecords(c.lines))])
  }

  /** Every line end is a non-negative `int`. */
  predicate Storable(lines: seq<Line>) {
    forall k :: 0 <= k < |lines| ==> 0 <= lines[k].a && 0 <= lines[k].b && IsInt32(lines[k].a) && IsInt32(lines[k].b)
  }

  /** Loading saved points gives back the points, with empty labels replaced by "P". */
  lemma {:induction false} LoadSavedPoints(points: seq<PointEntry>)
    ensures var r := LoadPoints(PointRecords(points));
            |r| == |points|
            && forall k :: 0 <= k < |points| ==> r[k] == PointEntry(points[k].pos, DefaultLabel(points[k].name))
    decreases |points|
  {
    if |points| > 0 {
      LoadSavedPoints(points[1..]);
      var vs := PointRecords(points);
      assert vs[1..] == PointRecords(points[1..]);
      var r := LoadPoints(vs);
      assert r == [PointOf(vs[0].fields)] + LoadPoints(vs[1..]);
      forall k | 1 <= k < |points|
        ensures r[k] == PointEntry(points[k].pos, DefaultLabel(points[k].name))
      {
        assert r[k] == LoadPoints(vs[1..])[k - 1];
        assert points[k] == points[1..][k - 1];
      }
    }
  }

  /** Loading saved lines gives back the lines when every end is a non-negative `int`. */
  lemma {:induction false} LoadSavedLines(lines: seq<Line>)
    requires Storable(lines)
    ensures LoadLines(LineRecords(lines)) == lines
    decreases |lines|
  {
    if |lines| > 0 {
      assert Storable(lines[1..]) by {
        forall k | 0 <= k < |lines[1..]|
          ensures 0 <= lines[1..][k].a && 0 <= lines[1..][k].b
          ensures IsInt32(lines[1..][k].a) && IsInt32(lines[1..][k].b)
        {
          assert lines[1..][k] == lines[k + 1];
        }
      }
      LoadSavedLines(lines[1..]);
      var vs := LineRecords(lines);
      assert vs[1..] == LineRecords(lines[1..]);
      assert [lines[0]] + lines[1..] == lines;
    }
  }

  /** Saving and loading again reproduces the points and the lines exactly,
      except that empty labels come back as "P"; the selection of the canvas
      loaded into is kept. */
  lemma SaveLoadRoundTrip(c: Canvas, current: Canvas)
    requires Storable(c.lines)
    ensures var r := Load(current, Save(c));
            && r.lines == c.lines
            && r.selected == current.selected
            && |r.points| == |c.points|
            && (forall k :: 0 <= k < |c.points| ==> r.points[k].pos == c.points[k].pos)
            && (forall k :: 0 <= k < |c.points| ==> r.points[k].name == DefaultLabel(c.points[k].name))
  {
    LoadSavedPoints(c.points);
    LoadSavedLines(c.lines);
  }

  /** With no empty label, saving and loading again is the identity on points and lines. */
  lemma SaveLoadIdentity(c: Canvas, current: Canvas)
    requires Storable(c.lines)
    requires forall k :: 0 <= k < |c.points| ==> c.points[k].name != ""
    ensures Load(current, Save(c)) == c.(selected := current.selected)
  {
    SaveLoadRoundTrip(c, current);
    var r := Load(current, Save(c));
    assert r.points == c.points;
  }

  /** A line object with non-negative ends is kept however many points are
      loaded; painting then skips it when an end lies beyond the point list. */
  lemma OutOfRangeLineKept(points: seq<Json>, a: nat, b: nat)
    requires IsInt32(a) && IsInt32(b)
    requires b >= |LoadPoints(points)|
    ensures var doc := JObj(map["points" := JArr(points), "lines" := JArr([LineRecord(Line(a, b))])]);
            var r := Load(Canvas([], [], {}), doc);
            r.lines == [Line(a, b)] && DrawnSegments(r.points, r.lines) == []
  {
    var rec := LineRecord(Line(a, b));
    assert EndsOf(rec.fields) == (a, b);
    assert LoadLines([rec]) == [Line(a, b)] + LoadLines([rec][1..]);
    assert !Drawable(LoadPoints(points), Line(a, b));
  }
}
