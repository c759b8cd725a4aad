/** The construction model of the canvas: an ordered list of labelled points
    that refuses coincident points, a list of index-pair lines that refuses a
    second line over the same unordered pair, and the set of selected point
    indices with its plain-click and Ctrl-click transitions. Painting and the
    screen-space hit test are not modelled: a click arrives as the index of the
    point it hit, if any. */
module Construction {
  import opened Common

  /** qFuzzyCompare on one coordinate (existing value first, new value second).
      Its floating-point definition is not modelled. */
  type Fuzzy = (int, int) -> bool

  /** One point of the construction with its label (`name`). */
  datatype PointEntry = PointEntry(pos: Pos, name: string)

  /** A segment between the points at indices `a` and `b`. */
  datatype Line = Line(a: int, b: int)

  /** The canvas state: points in insertion order, lines in insertion order, and
      the selected point indices (a QSet, so unordered and duplicate-free). */
  datatype Canvas = Canvas(points: seq<PointEntry>, lines: seq<Line>, selected: set<int>)

  /** The success flag of an operation together with the canvas after it. */
  datatype Step = Step(ok: bool, canvas: Canvas)

  /** The existing position `existing` and the new position `p` compare fuzzily equal on both axes. */
  predicate Coincide(fz: Fuzzy, existing: Pos, p: Pos) {
    fz(existing.x, p.x) && fz(existing.y, p.y)
  }

  /** The number of points. */
  function PointCount(c: Canvas): nat {
    |c.points|
  }

  /** The number of selected points. */
  function SelectedCount(c: Canvas): nat {
    |c.selected|
  }

  /** Scans the points from the first one and reports whether any coincides with `p`. */
  function HasPoint(fz: Fuzzy, points: seq<PointEntry>, p: Pos): (found: bool)
    ensures found <==> exists i :: 0 <= i < |points| && Coincide(fz, points[i].pos, p)
    decreases |points|
  {
    if |points| == 0 then false
    else if Coincide(fz, points[0].pos, p) then true
    else
      var found := HasPoint(fz, points[1..], p);
      assert forall i :: 1 <= i < |points| ==> points[i] == points[1..][i - 1];
      found
  }

  /** Adds the point `p` with the label `name` unless a coincident point exists. */
  function AddPoint(fz: Fuzzy, c: Canvas, p: Pos, name: string): (r: Step)
    ensures r.ok <==> !exists i :: 0 <= i < |c.points| && Coincide(fz, c.points[i].pos, p)
    ensures !r.ok ==> r.canvas == c
    ensures r.ok ==> PointCount(r.canvas) == PointCount(c) + 1
    ensures r.ok ==> r.canvas.points[..PointCount(c)] == c.points
    ensures r.ok ==> r.canvas.points[PointCount(c)] == PointEntry(p, name)
    ensures r.canvas.lines == c.lines && r.canvas.selected == c.selected
  {
    if HasPoint(fz, c.points, p) then Step(false, c)
    else Step(true, c.(points := c.points + [PointEntry(p, name)]))
  }

  /** No point coincides with a point added before it. */
  predicate Apart(fz: Fuzzy, points: seq<PointEntry>) {
    forall i, j :: 0 <= i < j < |points| ==> !Coincide(fz, points[i].pos, points[j].pos)
  }

  /** Adding points keeps them apart. */
  lemma AddPointKeepsApart(fz: Fuzzy, c: Canvas, p: Pos, name: string)
    requires Apart(fz, c.points)
    ensures Apart(fz, AddPoint(fz, c, p, name).canvas.points)
  {
  }

  /** Adding the same position twice changes the model only once: the second
      call fails and leaves the model as the first call left it. */
  lemma AddPointTwice(fz: Fuzzy, c: Canvas, p: Pos, name1: string, name2: string)
    requires forall v :: fz(v, v)
    ensures var first := AddPoint(fz, c, p, name1);
            var second := AddPoint(fz, first.canvas, p, name2);
            !second.ok && second.canvas == first.canvas
  {
    var first := AddPoint(fz, c, p, name1);
    if first.ok {
      assert Coincide(fz, first.canvas.points[|c.points|].pos, p);
    }
  }

  /** A set is empty or has an element. */
  lemma EmptyOrHasElement(s: set<int>)
    ensures s == {} || exists x :: x in s
  {
    if forall x :: x !in s {
      assert s == {};
    }
  }

  /** A smallest element of a non-empty set of integers exists. */
  lemma LeastExists(s: set<int>)
    requires s != {}
    ensures exists m :: m in s && forall y :: y in s ==> m <= y
    decreases |s|
  {
    EmptyOrHasElement(s);
    var x :| x in s;
    var rest := s - {x};
    if rest == {} {
      LeastOfSingleton(s, x);
    } else {
      assert |rest| == |s| - 1;
      LeastExists(rest);
      var m :| m in rest && forall y :: y in rest ==> m <= y;
      LeastOfRest(s, x, m);
    }
  }

  /** In a set with nothing besides `x`, `x` is the smallest element. */
  lemma LeastOfSingleton(s: set<int>, x: int)
    requires x in s && s - {x} == {}
    ensures forall y :: y in s ==> x <= y
  {
    forall y | y in s
      ensures x <= y
    {
      assert y !in s - {x};
    }
  }

  /** The smaller of `x` and the smallest of the other elements is the smallest of all. */
  lemma LeastOfRest(s: set<int>, x: int, m: int)
    requires x in s && m in s - {x}
    requires forall y :: y in s - {x} ==> m <= y
    ensures var least := if x < m then x else m;
      least in s && forall y :: y in s ==> least <= y
  {
    forall y | y in s
      ensures (if x < m then x else m) <= y
    {
      if y != x {
        assert y in s - {x};
      }
    }
  }

  /** The smallest element of a non-empty set of integers. */
  function Least(s: set<int>): (m: int)
    requires s != {}
    ensures m in s && forall y :: y in s ==> m <= y
  {
    LeastExists(s);
    var m :| m in s && forall y :: y in s ==> m <= y;
    m
  }

  /** The first two elements of the sorted selection: `a` is the smallest,
      `b` the smallest of the rest. */
  function SmallestTwo(s: set<int>): (pair: (int, int))
    requires |s| >= 2
    ensures pair.0 in s && pair.1 in s && pair.0 < pair.1
    ensures forall x :: x in s && x != pair.0 ==> pair.1 <= x
  {
    var a := Least(s);
    assert |s - {a}| == |s| - 1;
    var b := Least(s - {a});
    assert forall x :: x in s && x != a ==> x in s - {a};
    (a, b)
  }

  /** The line `l` joins `a` and `b`, in either order. */
  predicate SamePair(l: Line, a: int, b: int) {
    (l.a == a && l.b == b) || (l.a == b && l.b == a)
  }

  /** Some line joins `a` and `b`, in either order. */
  predicate HasLine(lines: seq<Line>, a: int, b: int) {
    exists k :: 0 <= k < |lines| && SamePair(lines[k], a, b)
  }

  /** No two lines join the same unordered pair of indices. */
  predicate DistinctPairs(lines: seq<Line>) {
    forall i, j :: 0 <= i < j < |lines| ==> !SamePair(lines[j], lines[i].a, lines[i].b)
  }

  /** Connects the two smallest selected indices, unless fewer than two points
      are selected or those two are already joined. */
  function AddLineBetweenSelected(c: Canvas): (r: Step)
    ensures |c.selected| < 2 ==> !r.ok
    ensures |c.selected| >= 2 ==> (r.ok <==> !HasLine(c.lines, SmallestTwo(c.selected).0, SmallestTwo(c.selected).1))
    ensures !r.ok ==> r.canvas == c
    ensures r.ok ==> |r.canvas.lines| == |c.lines| + 1 && r.canvas.lines[..|c.lines|] == c.lines
    ensures r.ok ==> var l := r.canvas.lines[|c.lines|];
                     && l.a < l.b && l.a in c.selected && l.b in c.selected
                     && (forall x :: x in c.selected && x != l.a ==> l.b <= x)
                     && !HasLine(c.lines, l.a, l.b)
    ensures r.canvas.points == c.points && r.canvas.selected == c.selected
  {
    if |c.selected| < 2 then Step(false, c)
    else
      var (a, b) := SmallestTwo(c.selected);
      if HasLine(c.lines, a, b) then Step(false, c)
      else Step(true, c.(lines := c.lines + [Line(a, b)]))
  }

  /** Connecting selected points never creates a second line over the same pair. */
  lemma AddLineKeepsPairsDistinct(c: Canvas)
    requires DistinctPairs(c.lines)
    ensures DistinctPairs(AddLineBetweenSelected(c).canvas.lines)
  {
    var r := AddLineBetweenSelected(c);
    if r.ok {
      var n := |c.lines|;
      var l := r.canvas.lines[n];
      forall i, j | 0 <= i < j < |r.canvas.lines|
        ensures !SamePair(r.canvas.lines[j], r.canvas.lines[i].a, r.canvas.lines[i].b)
      {
        if j == n {
          assert r.canvas.lines[i] == c.lines[i];
          assert !SamePair(c.lines[i], l.a, l.b);
        } else {
          assert r.canvas.lines[i] == c.lines[i] && r.canvas.lines[j] == c.lines[j];
        }
      }
    }
  }

  /** The selection after a mouse press that hit the point `hit` (or nothing),
      with or without the Ctrl modifier. */
  function Click(selected: set<int>, hit: Option<nat>, ctrl: bool): (r: set<int>)
    ensures hit.Some? && !ctrl ==> r == {hit.value}
    ensures hit.Some? && ctrl ==> r == (selected - {hit.value}) + ({hit.value} - selected)
    ensures hit.None? && !ctrl ==> r == {}
    ensures hit.None? && ctrl ==> r == selected
  {
    match hit
    case Some(i) =>
      if ctrl then (if i in selected then selected - {i} else selected + {i})
      else {i}
    case None =>
      if ctrl then selected else {}
  }

  /** The canvas after a mouse press; only the selection changes. */
  function MousePress(c: Canvas, hit: Option<nat>, ctrl: bool): (r: Canvas)
    ensures r.points == c.points && r.lines == c.lines
    ensures r.selected == Click(c.selected, hit, ctrl)
    ensures hit.None? && ctrl ==> r == c
  {
    c.(selected := Click(c.selected, hit, ctrl))
  }

  /** Two Ctrl-clicks on the same point restore the selection. */
  lemma CtrlClickTwice(selected: set<int>, i: nat)
    ensures Click(Click(selected, Some(i), true), Some(i), true) == selected
  {
  }

  /** Every selected index and every line end names an existing point. */
  predicate Consistent(c: Canvas) {
    && (forall i :: i in c.selected ==> 0 <= i < |c.points|)
    && (forall k :: 0 <= k < |c.lines| ==> 0 <= c.lines[k].a < |c.points| && 0 <= c.lines[k].b < |c.points|)
  }

  /** Adding a point, connecting the selection and clicking on an existing point
      (or on nothing) keep the canvas consistent. */
  lemma OperationsKeepConsistent(fz: Fuzzy, c: Canvas, p: Pos, name: string, hit: Option<nat>, ctrl: bool)
    requires Consistent(c)
    requires hit.Some? ==> hit.value < |c.points|
    ensures Consistent(AddPoint(fz, c, p, name).canvas)
    ensures Consistent(AddLineBetweenSelected(c).canvas)
    ensures Consistent(MousePress(c, hit, ctrl))
  {
  }

  /** True iff both ends of `l` index existing points. */
  predicate Drawable(points: seq<PointEntry>, l: Line) {
    0 <= l.a < |points| && 0 <= l.b < |points|
  }

  /** The segments painted for `lines`, in order: lines whose ends do not both
      index existing points are skipped. */
  function DrawnSegments(points: seq<PointEntry>, lines: seq<Line>): (segs: seq<(Pos, Pos)>)
    ensures |segs| <= |lines|
    ensures (forall k :: 0 <= k < |lines| ==> Drawable(points, lines[k])) ==> |segs| == |lines|
    ensures (forall k :: 0 <= k < |lines| ==> !Drawable(points, lines[k])) ==> segs == []
    decreases |lines|
  {
    if |lines| == 0 then []
    else
      var rest := DrawnSegments(points, lines[1..]);
      assert forall k :: 1 <= k < |lines| ==> lines[k] == lines[1..][k - 1];
      var l := lines[0];
      if Drawable(points, l) then [(points[l.a].pos, points[l.b].pos)] + rest else rest
  }
  /** One drawable line is painted from its first end to its second; any other line is not painted. */
  lemma DrawnSegmentsOne(points: seq<PointEntry>, l: Line)
    ensures DrawnSegments(points, [l]) == (if Drawable(points, l) then [(points[l.a].pos, points[l.b].pos)] else [])
  {
    assert [l][1..] == [];
  }

  /** Lines are painted one after the other, in order. */
  lemma {:induction false} DrawnSegmentsAppend(points: seq<PointEntry>, a: seq<Line>, b: seq<Line>)
    ensures DrawnSegments(points, a + b) == DrawnSegments(points, a) + DrawnSegments(points, b)
    decreases |a|
  {
    if |a| > 0 {
      assert (a + b)[1..] == a[1..] + b;
      assert (a + b)[0] == a[0];
      DrawnSegmentsAppend(points, a[1..], b);
    } else {
      assert a + b == b;
    }
  }

}
