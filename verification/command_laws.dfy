/** Laws relating the command writers to the replay parsers: every command the
    recorder writes is dispatched to its own branch, and the branch reads back
    exactly the tokens that were written, provided no token contains a separator. */
module CommandLaws {
  import opened Common
  import opened Strings
  import opened Commands

  /** The point items for `ps`, in order. */
  function PointItems(ps: seq<PointText>): (r: seq<Item>)
    ensures |r| == |ps| && forall i :: 0 <= i < |ps| ==> r[i] == PointItem(ps[i])
  {
    seq(|ps|, i requires 0 <= i < |ps| => PointItem(ps[i]))
  }

  /** The line items (or extended-line items) for `ss`, in order. */
  function SegmentItems(ss: seq<SegmentText>, extended: bool): (r: seq<Item>)
    ensures |r| == |ss|
    ensures forall i :: 0 <= i < |ss| ==> r[i] == SegmentItem(ss[i], extended)
  {
    seq(|ss|, i requires 0 <= i < |ss| => SegmentItem(ss[i], extended))
  }

  /** The circle items for `cs`, in order. */
  function CircleItems(cs: seq<CircleText>): (r: seq<Item>)
    ensures |r| == |cs| && forall i :: 0 <= i < |cs| ==> r[i] == CircleItem(cs[i])
  {
    seq(|cs|, i requires 0 <= i < |cs| => CircleItem(cs[i]))
  }

  /** `x,y` reads back as the point it was written from. */
  lemma PointRoundTrip(p: PointText)
    requires CleanPoint(p)
    ensures PointOf(PointStr(p)) == p
  {
    assert PointStr(p) == p.x + [','] + p.y;
    SplitAfterPiece(p.x, p.y, ',');
    SplitNoSeparator(p.y, ',');
  }

  /** `x,y|x,y` reads back as the segment it was written from. */
  lemma SegmentRoundTrip(s: SegmentText)
    requires CleanSegment(s)
    ensures SegmentOf(SegmentStr(s)) == Some(s)
  {
    PointRoundTrip(s.a);
    PointRoundTrip(s.b);
    assert SegmentStr(s) == PointStr(s.a) + ['|'] + PointStr(s.b);
    SplitAfterPiece(PointStr(s.a), PointStr(s.b), '|');
    SplitNoSeparator(PointStr(s.b), '|');
  }

  /** `x,y,r` reads back as the circle it was written from. */
  lemma CircleRoundTrip(c: CircleText)
    requires CleanCircle(c)
    ensures CircleOf(CircleStr(c)) == Some(c)
  {
    assert CircleStr(c) == c.x + [','] + (c.y + [','] + c.r);
    SplitAfterPiece(c.x, c.y + [','] + c.r, ',');
    SplitAfterPiece(c.y, c.r, ',');
    SplitNoSeparator(c.r, ',');
  }

  /** Reading the written points back gives their items. */
  lemma PointItemsRoundTrip(ps: seq<PointText>)
    requires forall i :: 0 <= i < |ps| ==> CleanPoint(ps[i])
    ensures PointItemsOf(PointStrs(ps)) == PointItems(ps)
  {
    var strs := PointStrs(ps);
    forall i | 0 <= i < |ps|
      ensures PointItemsOf(strs)[i] == PointItems(ps)[i]
    {
      PointRoundTrip(ps[i]);
    }
  }

  /** The field `P=…` written for `ps` yields exactly their point items. */
  lemma PointFieldRoundTrip(ps: seq<PointText>)
    requires |ps| > 0
    requires forall i :: 0 <= i < |ps| ==> CleanPoint(ps[i])
    ensures FieldItems("P=" + Join(PointStrs(ps), '|')) == PointItems(ps)
  {
    var strs := PointStrs(ps);
    forall i | 0 <= i < |strs|
      ensures '|' !in strs[i] && strs[i] != ""
    {
      assert strs[i] == ps[i].x + [','] + ps[i].y;
    }
    PiecesOfJoin(strs, '|');
    PointItemsRoundTrip(ps);
    var f := "P=" + Join(strs, '|');
    assert f[2..] == Join(strs, '|');
    assert StartsWith(f, "P=");
  }

  /** Reading the written segments back gives their items, as lines or as extended lines. */
  lemma SegmentItemsRoundTrip(ss: seq<SegmentText>, extended: bool)
    requires forall i :: 0 <= i < |ss| ==> CleanSegment(ss[i])
    ensures SegmentItemsOf(SegmentStrs(ss), extended) == SegmentItems(ss, extended)
  {
    var strs := SegmentStrs(ss);
    forall i | 0 <= i < |strs|
      ensures SegmentOf(strs[i]) == Some(ss[i])
    {
      SegmentRoundTrip(ss[i]);
    }
  }

  /** Reading the written circles back gives their items. */
  lemma CircleItemsRoundTrip(cs: seq<CircleText>)
    requires forall i :: 0 <= i < |cs| ==> CleanCircle(cs[i])
    ensures CircleItemsOf(CircleStrs(cs)) == CircleItems(cs)
  {
    var strs := CircleStrs(cs);
    forall i | 0 <= i < |strs|
      ensures CircleOf(strs[i]) == Some(cs[i])
    {
      CircleRoundTrip(cs[i]);
    }
    var r := CircleItemsOf(strs);
    assert |r| == |cs|;
    forall i | 0 <= i < |cs|
      ensures r[i] == CircleItems(cs)[i]
    {
      assert r[i] == CircleItem(CircleOf(strs[i]).value);
    }
  }

  /** A written segment is a non-empty piece without '#'. */
  lemma SegmentPiece(s: SegmentText)
    requires CleanSegment(s)
    ensures '#' !in SegmentStr(s) && SegmentStr(s) != ""
  {
    assert SegmentStr(s) == s.a.x + [','] + s.a.y + ['|'] + s.b.x + [','] + s.b.y;
  }

  /** A written circle is a non-empty piece without '#'. */
  lemma CirclePiece(c: CircleText)
    requires CleanCircle(c)
    ensures '#' !in CircleStr(c) && CircleStr(c) != ""
  {
    assert CircleStr(c) == c.x + [','] + c.y + [','] + c.r;
  }

  /** The items read from the body of an `L=` or `E=` field written for `ss`. */
  lemma SegmentBodyRoundTrip(ss: seq<SegmentText>, extended: bool)
    requires |ss| > 0
    requires forall i :: 0 <= i < |ss| ==> CleanSegment(ss[i])
    ensures SegmentItemsOf(SkipEmpty(Split(Join(SegmentStrs(ss), '#'), '#')), extended) == SegmentItems(ss, extended)
  {
    var strs := SegmentStrs(ss);
    forall i | 0 <= i < |strs|
      ensures '#' !in strs[i] && strs[i] != ""
    {
      SegmentPiece(ss[i]);
    }
    PiecesOfJoin(strs, '#');
    SegmentItemsRoundTrip(ss, extended);
  }

  /** The field `L=…` written for `ss` yields exactly their line items. */
  lemma LineFieldRoundTrip(ss: seq<SegmentText>)
    requires |ss| > 0
    requires forall i :: 0 <= i < |ss| ==> CleanSegment(ss[i])
    ensures FieldItems("L=" + Join(SegmentStrs(ss), '#')) == SegmentItems(ss, false)
  {
    var body := Join(SegmentStrs(ss), '#');
    var f := "L=" + body;
    assert f[2..] == body;
    NotPrefixAt(f, "P=", 0);
    assert StartsWith(f, "L=");
    SegmentBodyRoundTrip(ss, false);
  }

  /** The field `E=…` written for `ss` yields exactly their extended-line items. */
  lemma ExtendedFieldRoundTrip(ss: seq<SegmentText>)
    requires |ss| > 0
    requires forall i :: 0 <= i < |ss| ==> CleanSegment(ss[i])
    ensures FieldItems("E=" + Join(SegmentStrs(ss), '#')) == SegmentItems(ss, true)
  {
    var body := Join(SegmentStrs(ss), '#');
    var f := "E=" + body;
    assert f[2..] == body;
    NotPrefixAt(f, "P=", 0);
    NotPrefixAt(f, "L=", 0);
    assert StartsWith(f, "E=");
    SegmentBodyRoundTrip(ss, true);
  }

  /** The items read from the body of a `C=` field written for `cs`. */
  lemma CircleBodyRoundTrip(cs: seq<CircleText>)
    requires |cs| > 0
    requires forall i :: 0 <= i < |cs| ==> CleanCircle(cs[i])
    ensures CircleItemsOf(SkipEmpty(Split(Join(CircleStrs(cs), '#'), '#'))) == CircleItems(cs)
  {
    var strs := CircleStrs(cs);
    forall i | 0 <= i < |strs|
      ensures '#' !in strs[i] && strs[i] != ""
    {
      CirclePiece(cs[i]);
    }
    PiecesOfJoin(strs, '#');
    CircleItemsRoundTrip(cs);
  }

  /** The field `C=…` written for `cs` yields exactly their circle items. */
  lemma CircleFieldRoundTrip(cs: seq<CircleText>)
    requires |cs| > 0
    requires forall i :: 0 <= i < |cs| ==> CleanCircle(cs[i])
    ensures FieldItems("C=" + Join(CircleStrs(cs), '#')) == CircleItems(cs)
  {
    var body := Join(CircleStrs(cs), '#');
    var f := "C=" + body;
    assert f[2..] == body;
    NotPrefixAt(f, "P=", 0);
    NotPrefixAt(f, "L=", 0);
    NotPrefixAt(f, "E=", 0);
    assert StartsWith(f, "C=");
    CircleBodyRoundTrip(cs);
  }

  /** Fields are read independently, in order. */
  lemma {:induction false} FieldsItemsAppend(a: seq<string>, b: seq<string>)
    ensures FieldsItems(a + b) == FieldsItems(a) + FieldsItems(b)
    decreases |a|
  {
    if |a| > 0 {
      var ab := a + b;
      assert ab[0] == a[0];
      assert ab[1..] == a[1..] + b;
      FieldsItemsAppend(a[1..], b);
      calc {
        FieldsItems(ab);
        FieldItems(a[0]) + FieldsItems(a[1..] + b);
        FieldItems(a[0]) + (FieldsItems(a[1..]) + FieldsItems(b));
      }
    } else {
      assert a + b == b;
    }
  }

  /** A field that is present contains no ';'. */
  lemma FieldsAvoidSemicolon(ps: seq<PointText>, ls: seq<SegmentText>, es: seq<SegmentText>, cs: seq<CircleText>)
    requires forall i :: 0 <= i < |ps| ==> CleanPoint(ps[i])
    requires forall i :: 0 <= i < |ls| ==> CleanSegment(ls[i])
    requires forall i :: 0 <= i < |es| ==> CleanSegment(es[i])
    requires forall i :: 0 <= i < |cs| ==> CleanCircle(cs[i])
    ensures forall i :: 0 <= i < |DeleteFields(ps, ls, es, cs)| ==> ';' !in DeleteFields(ps, ls, es, cs)[i]
  {
    JoinAvoids(PointStrs(ps), '|', ';');
    JoinAvoids(SegmentStrs(ls), '#', ';');
    JoinAvoids(SegmentStrs(es), '#', ';');
    JoinAvoids(CircleStrs(cs), '#', ';');
  }

  /** A field list of at most one field yields that field's items. */
  lemma FieldsItemsOfOne(fields: seq<string>)
    requires |fields| <= 1
    ensures FieldsItems(fields) == if |fields| == 0 then [] else FieldItems(fields[0])
  {
    if |fields| == 1 {
      assert fields[1..] == [];
    }
  }

  /** The fields written for a selection yield its items: points, lines, extended lines, circles. */
  lemma FieldsRoundTrip(ps: seq<PointText>, ls: seq<SegmentText>, es: seq<SegmentText>, cs: seq<CircleText>)
    requires forall i :: 0 <= i < |ps| ==> CleanPoint(ps[i])
    requires forall i :: 0 <= i < |ls| ==> CleanSegment(ls[i])
    requires forall i :: 0 <= i < |es| ==> CleanSegment(es[i])
    requires forall i :: 0 <= i < |cs| ==> CleanCircle(cs[i])
    ensures FieldsItems(DeleteFields(ps, ls, es, cs))
            == PointItems(ps) + SegmentItems(ls, false) + SegmentItems(es, true) + CircleItems(cs)
  {
    var fp := if |ps| > 0 then ["P=" + Join(PointStrs(ps), '|')] else [];
    var fl := if |ls| > 0 then ["L=" + Join(SegmentStrs(ls), '#')] else [];
    var fe := if |es| > 0 then ["E=" + Join(SegmentStrs(es), '#')] else [];
    var fc := if |cs| > 0 then ["C=" + Join(CircleStrs(cs), '#')] else [];
    assert DeleteFields(ps, ls, es, cs) == fp + fl + fe + fc;
    FieldsItemsOfOne(fp);
    FieldsItemsOfOne(fl);
    FieldsItemsOfOne(fe);
    FieldsItemsOfOne(fc);
    if |ps| > 0 { PointFieldRoundTrip(ps); }
    if |ls| > 0 { LineFieldRoundTrip(ls); }
    if |es| > 0 { ExtendedFieldRoundTrip(es); }
    if |cs| > 0 { CircleFieldRoundTrip(cs); }
    FieldsItemsAppend(fp, fl);
    FieldsItemsAppend(fp + fl, fe);
    FieldsItemsAppend(fp + fl + fe, fc);
  }

  /** The ';'-separated parts of a `deleteSelected` command after the first are its fields. */
  lemma DeleteParts(ps: seq<PointText>, ls: seq<SegmentText>, es: seq<SegmentText>, cs: seq<CircleText>)
    requires forall i :: 0 <= i < |ps| ==> CleanPoint(ps[i])
    requires forall i :: 0 <= i < |ls| ==> CleanSegment(ls[i])
    requires forall i :: 0 <= i < |es| ==> CleanSegment(es[i])
    requires forall i :: 0 <= i < |cs| ==> CleanCircle(cs[i])
    ensures Split(DeleteCommand(ps, ls, es, cs), ';')[1..] == DeleteFields(ps, ls, es, cs)
  {
    var fields := DeleteFields(ps, ls, es, cs);
    var cmd := DeleteCommand(ps, ls, es, cs);
    if |fields| == 0 {
      assert cmd == DeleteSelectedPrefix;
      SplitNoSeparator(DeleteSelectedPrefix, ';');
    } else {
      FieldsAvoidSemicolon(ps, ls, es, cs);
      assert cmd == DeleteSelectedPrefix + [';'] + Join(fields, ';');
      SplitAfterPiece(DeleteSelectedPrefix, Join(fields, ';'), ';');
      SplitJoin(fields, ';');
    }
  }

  /** The replay parser recovers from a `deleteSelected` command exactly the
      points, lines, extended lines and circles it was written for, in that order. */
  lemma DeleteRoundTrip(ps: seq<PointText>, ls: seq<SegmentText>, es: seq<SegmentText>, cs: seq<CircleText>)
    requires forall i :: 0 <= i < |ps| ==> CleanPoint(ps[i])
    requires forall i :: 0 <= i < |ls| ==> CleanSegment(ls[i])
    requires forall i :: 0 <= i < |es| ==> CleanSegment(es[i])
    requires forall i :: 0 <= i < |cs| ==> CleanCircle(cs[i])
    ensures DeleteItems(DeleteCommand(ps, ls, es, cs))
            == PointItems(ps) + SegmentItems(ls, false) + SegmentItems(es, true) + CircleItems(cs)
  {
    DeleteParts(ps, ls, es, cs);
    FieldsRoundTrip(ps, ls, es, cs);
  }

  /** The fixed commands reach their own branches. */
  lemma ParseFixedCommands()
    ensures Parse(ExtendLinesCommand) == ExtendLines
    ensures Parse(DeleteAllCommand) == DeleteAll
    ensures Parse(IntersectionsCommand) == Intersections
  {
    NotPrefixAt(ExtendLinesCommand, DeleteSelectedPrefix, 0);
    NotPrefixAt(IntersectionsCommand, DeleteSelectedPrefix, 0);
  }

  /** A recorded `deleteSelected` command reaches the delete branch, which reads back its items. */
  lemma ParseDelete(ps: seq<PointText>, ls: seq<SegmentText>, es: seq<SegmentText>, cs: seq<CircleText>)
    requires forall i :: 0 <= i < |ps| ==> CleanPoint(ps[i])
    requires forall i :: 0 <= i < |ls| ==> CleanSegment(ls[i])
    requires forall i :: 0 <= i < |es| ==> CleanSegment(es[i])
    requires forall i :: 0 <= i < |cs| ==> CleanCircle(cs[i])
    ensures Parse(DeleteCommand(ps, ls, es, cs))
            == DeleteSelected(PointItems(ps) + SegmentItems(ls, false) + SegmentItems(es, true) + CircleItems(cs))
  {
    var cmd := DeleteCommand(ps, ls, es, cs);
    assert cmd[0] == 'd';
    assert cmd[..|DeleteSelectedPrefix|] == DeleteSelectedPrefix;
    DeleteRoundTrip(ps, ls, es, cs);
  }

  /** A recorded `addPoint:` command reaches its branch and reads back its point. */
  lemma ParseAddPoint(p: PointText)
    requires CleanPoint(p)
    ensures Parse(AddPointCommand(p)) == AddPoint(Some(p))
  {
    var cmd := AddPointCommand(p);
    assert cmd[0] == 'a' && cmd[3] == 'P';
    NotPrefixAt(cmd, DeleteSelectedPrefix, 0);
    assert cmd[..|AddPointPrefix|] == AddPointPrefix;
    assert Mid(cmd, |AddPointPrefix|) == p.x + [','] + p.y;
    SplitAfterPiece(p.x, p.y, ',');
    SplitNoSeparator(p.y, ',');
  }

  /** A recorded `setLabel:` command reaches its branch and reads back the whole label text. */
  lemma ParseSetLabel(text: string)
    ensures Parse(SetLabelCommand(text)) == SetLabel(text)
  {
    var cmd := SetLabelCommand(text);
    assert cmd[0] == 's';
    NotPrefixAt(cmd, DeleteSelectedPrefix, 0);
    NotPrefixAt(cmd, AddPointPrefix, 0);
    assert cmd[..|SetLabelPrefix|] == SetLabelPrefix;
    assert Mid(cmd, |SetLabelPrefix|) == text;
  }

  /** A recorded `open:` command reaches its branch and reads back the path. */
  lemma ParseOpen(path: string)
    ensures Parse(OpenCommand(path)) == Open(path)
  {
    var cmd := OpenCommand(path);
    assert cmd[0] == 'o';
    NotPrefixAt(cmd, DeleteSelectedPrefix, 0);
    NotPrefixAt(cmd, AddPointPrefix, 0);
    NotPrefixAt(cmd, SetLabelPrefix, 0);
    assert cmd[..|OpenPrefix|] == OpenPrefix;
    assert Mid(cmd, |OpenPrefix|) == path;
  }

  /** A recorded `save:` command reaches its branch and reads back the path. */
  lemma ParseSave(path: string)
    ensures Parse(SaveCommand(path)) == Save(path)
  {
    var cmd := SaveCommand(path);
    assert cmd[0] == 's' && cmd[1] == 'a';
    NotPrefixAt(cmd, DeleteSelectedPrefix, 0);
    NotPrefixAt(cmd, AddPointPrefix, 0);
    NotPrefixAt(cmd, SetLabelPrefix, 1);
    NotPrefixAt(cmd, OpenPrefix, 0);
    assert cmd[..|SavePrefix|] == SavePrefix;
    assert Mid(cmd, |SavePrefix|) == path;
  }

  /** A recorded `addNormal:` command reaches its branch and reads back its line and point. */
  lemma ParseAddNormal(n: NormalText)
    requires CleanSegment(n.line) && CleanPoint(n.through)
    ensures Parse(AddNormalCommand(n)) == AddNormal(Some(n))
  {
    var cmd := AddNormalCommand(n);
    assert cmd[0] == 'a' && cmd[3] == 'N' && |cmd| > |AddNormalBare|;
    NotPrefixAt(cmd, DeleteSelectedPrefix, 0);
    NotPrefixAt(cmd, AddPointPrefix, 3);
    NotPrefixAt(cmd, SetLabelPrefix, 0);
    NotPrefixAt(cmd, OpenPrefix, 0);
    NotPrefixAt(cmd, SavePrefix, 0);
    assert cmd[..|AddNormalPrefix|] == AddNormalPrefix;
    assert Mid(cmd, |AddNormalPrefix|) == SegmentStr(n.line) + [';'] + PointStr(n.through);
    NormalArgsRoundTrip(n);
  }

  /** The payload of a recorded `addNormal:` command reads back as the same line and point. */
  lemma NormalArgsRoundTrip(n: NormalText)
    requires CleanSegment(n.line) && CleanPoint(n.through)
    ensures NormalArgs(SegmentStr(n.line) + [';'] + PointStr(n.through)) == Some(n)
  {
    var line := SegmentStr(n.line);
    assert ';' !in line;
    assert ';' !in PointStr(n.through);
    SplitAfterPiece(line, PointStr(n.through), ';');
    SplitNoSeparator(PointStr(n.through), ';');
    SegmentRoundTrip(n.line);
    PointRoundTrip(n.through);
  }

  /** A recorded `addLine:` command reaches its branch and reads back its two points. */
  lemma ParseAddLine(s: SegmentText)
    requires CleanSegment(s)
    ensures Parse(AddLineCommand(s)) == AddLine(Some(s))
  {
    var cmd := AddLineCommand(s);
    assert cmd[0] == 'a' && cmd[3] == 'L';
    NotPrefixAt(cmd, DeleteSelectedPrefix, 0);
    NotPrefixAt(cmd, AddPointPrefix, 3);
    NotPrefixAt(cmd, SetLabelPrefix, 0);
    NotPrefixAt(cmd, OpenPrefix, 0);
    NotPrefixAt(cmd, SavePrefix, 0);
    NotPrefixAt(cmd, AddNormalPrefix, 3);
    assert cmd[..|AddLinePrefix|] == AddLinePrefix;
    assert Mid(cmd, |AddLinePrefix|) == SegmentStr(s);
    SegmentRoundTrip(s);
  }

  /** A recorded `addCircle:` command reaches its branch and reads back its centre and edge point. */
  lemma ParseAddCircle(s: SegmentText)
    requires CleanSegment(s)
    ensures Parse(AddCircleCommand(s)) == AddCircle(Some(s))
  {
    var cmd := AddCircleCommand(s);
    assert cmd[0] == 'a' && cmd[3] == 'C' && |cmd| > |AddCircleBare|;
    NotPrefixAt(cmd, DeleteSelectedPrefix, 0);
    NotPrefixAt(cmd, AddPointPrefix, 3);
    NotPrefixAt(cmd, SetLabelPrefix, 0);
    NotPrefixAt(cmd, OpenPrefix, 0);
    NotPrefixAt(cmd, SavePrefix, 0);
    NotPrefixAt(cmd, AddNormalPrefix, 3);
    NotPrefixAt(cmd, AddLinePrefix, 3);
    assert cmd[..|AddCirclePrefix|] == AddCirclePrefix;
    assert Mid(cmd, |AddCirclePrefix|) == SegmentStr(s);
    SegmentRoundTrip(s);
  }
}
