/**
 * The shunt scatter of team1.py. `build_patient_data` keeps the rows whose
 * identifier, surgical weight and shunt size are all present (`dropna` on
 * those three columns, in table order) and hands them over as three
 * parallel lists; the dashboard numbers the points 1..n and splits them
 * into the current patient and the other patients.
 */
module Scatter {
  import opened Records

  /** The three columns the scatter reads. */
  const ScatterColumns: set<string> := {"PatID", "SurgWtKg", "Shunt Size"}

  /** A row survives `dropna` when none of its three scatter values is missing. */
  predicate Complete(row: Row)
  {
    CellAt(row, "PatID") != Missing && CellAt(row, "SurgWtKg") != Missing && CellAt(row, "Shunt Size") != Missing
  }

  /** The complete rows, in table order. */
  function CompleteRows(rows: seq<Row>): (r: seq<Row>)
    ensures |r| <= |rows|
    ensures forall row :: row in r <==> row in rows && Complete(row)
  {
    if rows == [] then []
    else (if Complete(rows[0]) then [rows[0]] else []) + CompleteRows(rows[1..])
  }

  /** Identifiers are text, so `dropna` drops a row only for a missing weight or shunt size. */
  lemma IdNeverDropped(t: Table)
    requires WellFormed(t) && "PatID" in t.columns
    ensures forall i :: 0 <= i < |t.rows| ==>
              (Complete(t.rows[i]) <==> CellAt(t.rows[i], "SurgWtKg") != Missing && CellAt(t.rows[i], "Shunt Size") != Missing)
  {
  }

  /** Filtering distributes over concatenation, so the kept rows stay in their table order. */
  lemma {:induction false} CompleteRowsConcat(a: seq<Row>, b: seq<Row>)
    ensures CompleteRows(a + b) == CompleteRows(a) + CompleteRows(b)
  {
    if a == [] {
      assert a + b == b;
    } else {
      assert (a + b)[0] == a[0];
      assert (a + b)[1..] == a[1..] + b;
      CompleteRowsConcat(a[1..], b);
    }
  }

  lemma {:induction false} AllCompleteKept(rows: seq<Row>)
    requires forall i :: 0 <= i < |rows| ==> Complete(rows[i])
    ensures CompleteRows(rows) == rows
  {
    if rows != [] {
      AllCompleteKept(rows[1..]);
    }
  }

  /** Nothing is dropped exactly when every row is complete; dropping twice drops nothing more. */
  lemma CompleteRowsKeepsAll(rows: seq<Row>)
    ensures CompleteRows(rows) == rows <==> forall i :: 0 <= i < |rows| ==> Complete(rows[i])
    ensures CompleteRows(CompleteRows(rows)) == CompleteRows(rows)
  {
    if forall i :: 0 <= i < |rows| ==> Complete(rows[i]) {
      AllCompleteKept(rows);
    }
    var kept := CompleteRows(rows);
    forall i | 0 <= i < |kept|
      ensures Complete(kept[i])
    {
      assert kept[i] in kept;
    }
    AllCompleteKept(kept);
    if kept == rows {
      forall i | 0 <= i < |rows|
        ensures Complete(rows[i])
      {
        assert rows[i] in kept;
      }
    }
  }

  /** The value of one column in every row. */
  function Column(rows: seq<Row>, key: string): (r: seq<Cell>)
    ensures |r| == |rows|
    ensures forall i :: 0 <= i < |rows| ==> r[i] == CellAt(rows[i], key)
  {
    seq(|rows|, i requires 0 <= i < |rows| => CellAt(rows[i], key))
  }

  /** The `shunt_scatter` entry of the dashboard data. */
  datatype ScatterData = ScatterData(patientIds: seq<Cell>, weightKg: seq<Cell>, shuntMm: seq<Cell>,
                                     currentPatientId: string)

  /**
   * The three lists come from the same complete rows, so they have equal
   * length and none of their values is missing. The source raises a
   * KeyError when one of the three columns is absent from the table.
   */
  function ScatterOf(t: Table, patientId: string): (s: ScatterData)
    requires ScatterColumns <= t.columns
    ensures |s.patientIds| == |s.weightKg| == |s.shuntMm| == |CompleteRows(t.rows)|
    ensures forall i :: 0 <= i < |s.patientIds| ==>
              s.patientIds[i] != Missing && s.weightKg[i] != Missing && s.shuntMm[i] != Missing
    ensures forall i :: 0 <= i < |s.patientIds| ==>
              var row := CompleteRows(t.rows)[i];
              s.patientIds[i] == CellAt(row, "PatID") && s.weightKg[i] == CellAt(row, "SurgWtKg") &&
              s.shuntMm[i] == CellAt(row, "Shunt Size")
    ensures s.currentPatientId == patientId
  {
    var kept := CompleteRows(t.rows);
    assert forall i :: 0 <= i < |kept| ==> Complete(kept[i]) by {
      forall i | 0 <= i < |kept| ensures Complete(kept[i]) {
        assert kept[i] in kept;
      }
    }
    ScatterData(Column(kept, "PatID"), Column(kept, "SurgWtKg"), Column(kept, "Shunt Size"), patientId)
  }

  /** One plotted point: its 1-based position and the three values behind it. */
  datatype Point = Point(x: int, id: Cell, weight: Cell, shunt: Cell)

  /** The plot's frame: point i sits at x = i + 1. */
  function Points(s: ScatterData): (p: seq<Point>)
    requires |s.patientIds| == |s.weightKg| == |s.shuntMm|
    ensures |p| == |s.patientIds|
    ensures forall i :: 0 <= i < |p| ==> p[i].x == i + 1
    ensures forall i :: 0 <= i < |p| ==> p[i].id == s.patientIds[i] && p[i].weight == s.weightKg[i] && p[i].shunt == s.shuntMm[i]
  {
    seq(|s.patientIds|, i requires 0 <= i < |s.patientIds| => Point(i + 1, s.patientIds[i], s.weightKg[i], s.shuntMm[i]))
  }

  predicate IsCurrent(p: Point, currentId: string)
  {
    p.id == Text(currentId)
  }

  /** The highlighted points: those whose identifier equals the current patient's. */
  function Current(points: seq<Point>, currentId: string): (r: seq<Point>)
    ensures forall p :: p in r <==> p in points && IsCurrent(p, currentId)
  {
    if points == [] then []
    else (if IsCurrent(points[0], currentId) then [points[0]] else []) + Current(points[1..], currentId)
  }

  /** The "Other Patients" points: the rest. */
  function Others(points: seq<Point>, currentId: string): (r: seq<Point>)
    ensures forall p :: p in r <==> p in points && !IsCurrent(p, currentId)
  {
    if points == [] then []
    else (if IsCurrent(points[0], currentId) then [] else [points[0]]) + Others(points[1..], currentId)
  }

  /** The two series partition the points: each point is drawn exactly once. */
  lemma {:induction false} CurrentOthersPartition(points: seq<Point>, currentId: string)
    ensures multiset(Current(points, currentId)) + multiset(Others(points, currentId)) == multiset(points)
    ensures |Current(points, currentId)| + |Others(points, currentId)| == |points|
  {
    if points != [] {
      CurrentOthersPartition(points[1..], currentId);
      assert points == [points[0]] + points[1..];
    }
  }

  /** A highlighted point comes from a complete row carrying the current identifier. */
  lemma HighlightedRowExists(t: Table, patientId: string)
    requires ScatterColumns <= t.columns
    requires Current(Points(ScatterOf(t, patientId)), patientId) != []
    ensures exists i :: 0 <= i < |t.rows| && Complete(t.rows[i]) && HasId(t.rows[i], patientId)
  {
    var kept := CompleteRows(t.rows);
    var pts := Points(ScatterOf(t, patientId));
    var cur := Current(pts, patientId);
    assert cur[0] in cur;
    var k :| 0 <= k < |pts| && pts[k] == cur[0];
    assert CellAt(kept[k], "PatID") == Text(patientId);
    assert kept[k] in kept;
    var i :| 0 <= i < |t.rows| && t.rows[i] == kept[k];
    assert HasId(t.rows[i], patientId);
  }

  /** A complete row carrying the current identifier yields a highlighted point. */
  lemma CompleteRowHighlighted(t: Table, patientId: string, i: nat)
    requires ScatterColumns <= t.columns
    requires i < |t.rows| && Complete(t.rows[i]) && HasId(t.rows[i], patientId)
    ensures Current(Points(ScatterOf(t, patientId)), patientId) != []
  {
    var kept := CompleteRows(t.rows);
    var pts := Points(ScatterOf(t, patientId));
    assert t.rows[i] in kept;
    var k :| 0 <= k < |kept| && kept[k] == t.rows[i];
    assert IsCurrent(pts[k], patientId);
    assert pts[k] in Current(pts, patientId);
  }

  /**
   * The current patient is highlighted exactly when some complete row of the
   * table carries that identifier.
   */
  lemma HighlightIffCompleteRow(t: Table, patientId: string)
    requires ScatterColumns <= t.columns
    ensures Current(Points(ScatterOf(t, patientId)), patientId) != [] <==>
            exists i :: 0 <= i < |t.rows| && Complete(t.rows[i]) && HasId(t.rows[i], patientId)
  {
    if Current(Points(ScatterOf(t, patientId)), patientId) != [] {
      HighlightedRowExists(t, patientId);
    }
    if exists i :: 0 <= i < |t.rows| && Complete(t.rows[i]) && HasId(t.rows[i], patientId) {
      var i :| 0 <= i < |t.rows| && Complete(t.rows[i]) && HasId(t.rows[i], patientId);
      CompleteRowHighlighted(t, patientId, i);
    }
  }
}
