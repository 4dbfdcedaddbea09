/**
 * The notification lists of `build_patient_data` (team1.py): every guarded
 * block tests one column of the selected row and, when the test passes,
 * appends one item (title, subtext, risk, details) to the complications,
 * comorbidities or other list.
 *
 * The blocks are modelled as rows of a check table, in the source's order;
 * `AppendTriggered` runs the blocks of one list, and the lemmas below state
 * what the resulting lists promise.
 */
module Notifications {
  import opened Records
  import opened Bands
  import Loader

  /** One line of an item's details: a caption and the value shown after it. */
  datatype Detail = Detail(caption: string, value: Cell)

  /** Details are either captioned values or a fixed sentence. */
  datatype Details = Fields(entries: seq<Detail>) | Note(text: string)

  datatype Notification = Notification(title: string, subtext: string, risk: Risk, details: Details)

  /** How a block tests its column. */
  datatype Rule =
    | EqualsOne(default: Cell)  // the value read with `default` compares equal to 1
    | ReadsYes                  // the value read with default "No" is "Yes"

  /** How a block fills one line of details. */
  datatype Line =
    | Show(caption: string, column: string)      // the column's value, "N/A" when absent
    | YesIfOne(caption: string, column: string)  // "Yes" when the column reads 1 (absent reads 0), else "No"

  datatype Template = Lines(lines: seq<Line>) | Fixed(text: string)

  /** One guarded block: the column it tests and the item it appends. */
  datatype Check = Check(column: string, rule: Rule, title: string, subtext: string, risk: Risk, template: Template)

  const NotAvailable := Text("N/A")

  /** Default of an integer flag column: 0. */
  const Zero := Num(0.0)

  /** The complication blocks, in the order the builder runs them. */
  const ComplicationChecks: seq<Check> := [
    Check("CompCardArrest", EqualsOne(Zero), "Cardiac Arrest",
          "Patient experienced cardiac arrest.", High,
          Lines([Show("Date/Time", "CardArrestDtTm")])),
    Check("MechCircSupp", EqualsOne(Zero), "Mechanical Support",
          "Mechanical circulatory support was required.", High,
          Lines([Show("Type", "MechCircSuppType"), Show("Reason", "MechCircSuppReason"),
                 Show("Date", "MechCircSuppInitDtTm")])),
    Check("CompLCOS2", EqualsOne(Zero), "Low Cardiac Output",
          "Patient experienced Low Cardiac Output Syndrome.", High,
          Lines([Show("Date/Time", "CompLCOSDtTime")])),
    Check("CompReopBleed", EqualsOne(Zero), "Reoperation for Bleeding",
          "Patient required reoperation for bleeding.", Medium,
          Lines([Show("Date/Time", "CompReopBleedDtTm")])),
    Check("CompChyloIntv", EqualsOne(Zero), "Chylothorax",
          "Intervention required for chylothorax.", Medium,
          Lines([Show("Date/Time", "CompChyloIntvDtTm")])),
    Check("CompSepsis", EqualsOne(Zero), "Sepsis",
          "Patient developed sepsis.", High,
          Lines([Show("Date", "CompSepsisDt")])),
    Check("CompSupWoundInf", EqualsOne(Zero), "Superficial Wound Infection",
          "Post-operative superficial wound infection.", Medium,
          Lines([Show("Date", "CompSupWoundInfDt")])),
    Check("CompWoundInf", EqualsOne(Zero), "Deep Wound Infection",
          "Post-operative deep wound infection.", High,
          Fixed("No additional details available.")),
    Check("CompCLABSI", EqualsOne(Zero), "CLABSI",
          "Central line-associated bloodstream infection.", High,
          Lines([Show("Date", "CompCLABSIDt")])),
    Check("CompStroke", EqualsOne(Zero), "Stroke",
          "Patient experienced a stroke.", High,
          Lines([Show("Date/Time", "StrokeDtTm"), YesIfOne("Hemorrhage", "StrokeHemorrhage")])),
    Check("CompIVH", EqualsOne(Zero), "IVH (Intraventricular Hemorrhage)",
          "Patient developed an IVH.", High,
          Lines([Show("Date/Time", "CompIVHDtTm")])),
    Check("CompNECBell", EqualsOne(Zero), "NEC (Necrotizing Enterocolitis)",
          "Patient developed NEC.", High,
          Lines([Show("Date", "NECbellDt")])),
    Check("Concurrent TAPVR Repair", EqualsOne(Zero), "Concurrent TAPVR Repair",
          "TAPVR repair performed during surgery.", Medium,
          Fixed("TAPVR repair was performed during the primary surgery."))
  ]

  /** The comorbidity blocks; the syndrome flag defaults to False. */
  const ComorbidityChecks: seq<Check> := [
    Check("Syndrome_Present_bool", EqualsOne(Flag(false)), "Genetic Syndrome",
          "Genetic syndrome identified.", Medium,
          Lines([Show("Syndrome Term", "SyndromeTerm")])),
    Check("ChromAb", EqualsOne(Zero), "Chromosomal Abnormality",
          "Chromosomal abnormality present.", Medium,
          Lines([Show("Abnormality", "ChromAbTerm")]))
  ]

  /** The single "other" block. */
  const OtherChecks: seq<Check> := [
    Check("Fetal_Drug_Exposure_label", ReadsYes, "Fetal Drug Exposure",
          "Patient had fetal drug exposure.", Medium,
          Fixed("Patient noted as having fetal drug exposure."))
  ]

  /** Whether the block's test passes on the row. */
  predicate Fires(c: Check, row: Row)
  {
    match c.rule
    case EqualsOne(d) => EqualsInt(GetPatientValue(row, c.column, d), 1)
    case ReadsYes => GetPatientValue(row, c.column, Text("No")) == Text("Yes")
  }

  /** One line of details for the row. */
  function RenderLine(l: Line, row: Row): (d: Detail)
    ensures d.caption == l.caption
    ensures l.Show? ==> (d.value == NotAvailable <==> GetPatientValue(row, l.column, NotAvailable) == NotAvailable)
    ensures l.Show? && (l.column !in row || row[l.column] == Missing) ==> d.value == NotAvailable
    ensures l.Show? && l.column in row && row[l.column] != Missing ==> d.value == row[l.column]
    ensures l.YesIfOne? ==> (d.value == Text("Yes") <==> EqualsInt(GetPatientValue(row, l.column, Zero), 1))
    ensures l.YesIfOne? ==> d.value in {Text("Yes"), Text("No")}
  {
    match l
    case Show(caption, column) => Detail(caption, GetPatientValue(row, column, NotAvailable))
    case YesIfOne(caption, column) =>
      Detail(caption, Text(if EqualsInt(GetPatientValue(row, column, Zero), 1) then "Yes" else "No"))
  }

  /** The lines of a template, in order. */
  function Render(lines: seq<Line>, row: Row): (r: seq<Detail>)
    ensures |r| == |lines|
    ensures forall i :: 0 <= i < |lines| ==> r[i] == RenderLine(lines[i], row)
  {
    if lines == [] then [] else [RenderLine(lines[0], row)] + Render(lines[1..], row)
  }

  function DetailsOf(t: Template, row: Row): Details
  {
    match t
    case Lines(lines) => Fields(Render(lines, row))
    case Fixed(text) => Note(text)
  }

  function ItemOf(c: Check, row: Row): Notification
  {
    Notification(c.title, c.subtext, c.risk, DetailsOf(c.template, row))
  }

  /** What one block contributes: its item when it fires, nothing otherwise. */
  function Entry(c: Check, row: Row): seq<Notification>
  {
    if Fires(c, row) then [ItemOf(c, row)] else []
  }

  /** The items produced by running the first `k` blocks of `checks`, in order. */
  function CheckFirst(checks: seq<Check>, k: nat, row: Row): seq<Notification>
    requires k <= |checks|
  {
    if k == 0 then [] else CheckFirst(checks, k - 1, row) + Entry(checks[k - 1], row)
  }

  /** The list built by running every block of `checks` in order. */
  function ListFor(checks: seq<Check>, row: Row): seq<Notification>
  {
    CheckFirst(checks, |checks|, row)
  }

  /** The blocks of one list, run in order, each appending its item when it fires. */
  method AppendTriggered(checks: seq<Check>, row: Row) returns (list: seq<Notification>)
    ensures list == ListFor(checks, row)
  {
    list := [];
    for i := 0 to |checks|
      invariant list == CheckFirst(checks, i, row)
    {
      if Fires(checks[i], row) {
        list := list + [ItemOf(checks[i], row)];
      }
    }
  }

  /** `build_patient_data`, notification part: the three lists, each from its own blocks. */
  method BuildNotifications(row: Row)
    returns (complications: seq<Notification>, comorbidities: seq<Notification>, other: seq<Notification>)
    ensures complications == ListFor(ComplicationChecks, row)
    ensures comorbidities == ListFor(ComorbidityChecks, row)
    ensures other == ListFor(OtherChecks, row)
  {
    complications := AppendTriggered(ComplicationChecks, row);
    comorbidities := AppendTriggered(ComorbidityChecks, row);
    other := AppendTriggered(OtherChecks, row);
  }

  /** The blocks among the first `k` of `checks` that fire, in order. */
  function FiredFirst(checks: seq<Check>, k: nat, row: Row): (r: seq<Check>)
    requires k <= |checks|
    ensures |r| <= k
    ensures forall c :: c in r <==> c in checks[..k] && Fires(c, row)
  {
    if k == 0 then []
    else
      assert checks[..k] == checks[..k - 1] + [checks[k - 1]];
      FiredFirst(checks, k - 1, row) + (if Fires(checks[k - 1], row) then [checks[k - 1]] else [])
  }

  /** The blocks of `checks` that fire, in order. */
  function Fired(checks: seq<Check>, row: Row): (r: seq<Check>)
    ensures |r| <= |checks|
    ensures forall c :: c in r <==> c in checks && Fires(c, row)
  {
    assert checks[..|checks|] == checks;
    FiredFirst(checks, |checks|, row)
  }

  lemma {:induction false} ItemsOfFiredFirst(checks: seq<Check>, k: nat, row: Row)
    requires k <= |checks|
    ensures |CheckFirst(checks, k, row)| == |FiredFirst(checks, k, row)|
    ensures forall i :: 0 <= i < |FiredFirst(checks, k, row)| ==>
              CheckFirst(checks, k, row)[i] == ItemOf(FiredFirst(checks, k, row)[i], row)
  {
    if k > 0 {
      ItemsOfFiredFirst(checks, k - 1, row);
    }
  }

  /** The i-th item of a list is the item of the i-th block that fired. */
  lemma ItemsOfFired(checks: seq<Check>, row: Row)
    ensures |ListFor(checks, row)| == |Fired(checks, row)|
    ensures forall i :: 0 <= i < |Fired(checks, row)| ==>
              ListFor(checks, row)[i] == ItemOf(Fired(checks, row)[i], row)
  {
    ItemsOfFiredFirst(checks, |checks|, row);
  }

  /** No two blocks of `checks` append items with the same title. */
  predicate DistinctTitles(checks: seq<Check>)
  {
    forall i, j :: 0 <= i < j < |checks| ==> checks[i].title != checks[j].title
  }

  /** The thirteen complication blocks carry thirteen different titles. */
  lemma ComplicationTitlesDistinct()
    ensures DistinctTitles(ComplicationChecks)
  {
  }

  /** The comorbidity and other titles differ from each other and from every complication title. */
  lemma LaterTitlesNew()
    ensures DistinctTitles(ComorbidityChecks + OtherChecks)
    ensures forall i, j :: 0 <= i < |ComplicationChecks| && 0 <= j < |ComorbidityChecks + OtherChecks| ==>
              ComplicationChecks[i].title != (ComorbidityChecks + OtherChecks)[j].title
  {
  }

  /** Every title the builder can show names exactly one block. */
  lemma TablesHaveDistinctTitles()
    ensures DistinctTitles(ComplicationChecks + ComorbidityChecks + OtherChecks)
  {
    var later := ComorbidityChecks + OtherChecks;
    var all := ComplicationChecks + later;
    assert ComplicationChecks + ComorbidityChecks + OtherChecks == all;
    ComplicationTitlesDistinct();
    LaterTitlesNew();
    var k := |ComplicationChecks|;
    forall i, j | 0 <= i < j < |all|
      ensures all[i].title != all[j].title
    {
      if j < k {
        assert all[i] == ComplicationChecks[i] && all[j] == ComplicationChecks[j];
      } else if i < k {
        assert all[i] == ComplicationChecks[i] && all[j] == later[j - k];
      } else {
        assert all[i] == later[i - k] && all[j] == later[j - k];
      }
    }
  }

  /** Titles are distinct within each list, so the membership lemma applies to each. */
  lemma ListsHaveDistinctTitles()
    ensures DistinctTitles(ComplicationChecks) && DistinctTitles(ComorbidityChecks) && DistinctTitles(OtherChecks)
  {
    ComplicationTitlesDistinct();
    LaterTitlesNew();
    assert (ComorbidityChecks + OtherChecks)[0] == ComorbidityChecks[0];
    assert (ComorbidityChecks + OtherChecks)[1] == ComorbidityChecks[1];
  }

  /** With distinct titles, a block's item appears in the list exactly when the block fires. */
  lemma ItemPresentIffFires(checks: seq<Check>, c: Check, row: Row)
    requires DistinctTitles(checks) && c in checks
    ensures ItemOf(c, row) in ListFor(checks, row) <==> Fires(c, row)
  {
    ItemsOfFired(checks, row);
    var items, fired := ListFor(checks, row), Fired(checks, row);
    if ItemOf(c, row) in items {
      var i :| 0 <= i < |items| && items[i] == ItemOf(c, row);
      assert fired[i] in fired;
      var a :| 0 <= a < |checks| && checks[a] == c;
      var b :| 0 <= b < |checks| && checks[b] == fired[i];
      assert checks[a].title == checks[b].title;
    }
    if Fires(c, row) {
      assert c in fired;
      var i :| 0 <= i < |fired| && fired[i] == c;
      assert items[i] == ItemOf(c, row);
    }
  }

  /** A list is empty exactly when none of its blocks fires; it never outgrows its blocks. */
  lemma EmptyIffNoneFires(checks: seq<Check>, row: Row)
    ensures ListFor(checks, row) == [] <==> forall c :: c in checks ==> !Fires(c, row)
    ensures |ListFor(checks, row)| <= |checks|
  {
    ItemsOfFired(checks, row);
    var fired := Fired(checks, row);
    if fired != [] {
      assert fired[0] in fired;
    }
  }

  lemma {:induction false} CheckFirstAgree(a: seq<Check>, b: seq<Check>, k: nat, row: Row)
    requires k <= |a| && k <= |b| && a[..k] == b[..k]
    ensures CheckFirst(a, k, row) == CheckFirst(b, k, row)
  {
    if k > 0 {
      assert a[k - 1] == a[..k][k - 1] == b[..k][k - 1] == b[k - 1];
      assert a[..k - 1] == a[..k][..k - 1];
      assert b[..k - 1] == b[..k][..k - 1];
      CheckFirstAgree(a, b, k - 1, row);
    }
  }

  lemma {:induction false} CheckFirstConcat(a: seq<Check>, b: seq<Check>, j: nat, row: Row)
    requires j <= |b|
    ensures CheckFirst(a + b, |a| + j, row) == ListFor(a, row) + CheckFirst(b, j, row)
  {
    if j == 0 {
      assert (a + b)[..|a|] == a[..|a|];
      CheckFirstAgree(a + b, a, |a|, row);
    } else {
      CheckFirstConcat(a, b, j - 1, row);
      assert (a + b)[|a| + j - 1] == b[j - 1];
    }
  }

  /** Running two runs of blocks one after the other concatenates their lists. */
  lemma NotificationsConcat(a: seq<Check>, b: seq<Check>, row: Row)
    ensures ListFor(a + b, row) == ListFor(a, row) + ListFor(b, row)
  {
    CheckFirstConcat(a, b, |b|, row);
  }

  /** Every item of a list carries the risk of a block of that list. */
  lemma ItemRisks(checks: seq<Check>, row: Row, n: Notification)
    requires n in ListFor(checks, row)
    ensures exists c :: c in checks && Fires(c, row) && n == ItemOf(c, row)
  {
    ItemsOfFired(checks, row);
    var i :| 0 <= i < |ListFor(checks, row)| && ListFor(checks, row)[i] == n;
    assert Fired(checks, row)[i] in Fired(checks, row);
  }

  /** Comorbidity and other items are always of medium risk. */
  lemma ComorbiditiesAndOtherAreMedium(row: Row)
    ensures forall n :: n in ListFor(ComorbidityChecks, row) ==> n.risk == Medium
    ensures forall n :: n in ListFor(OtherChecks, row) ==> n.risk == Medium
  {
    forall n | n in ListFor(ComorbidityChecks, row)
      ensures n.risk == Medium
    {
      ItemRisks(ComorbidityChecks, row, n);
    }
    forall n | n in ListFor(OtherChecks, row)
      ensures n.risk == Medium
    {
      ItemRisks(OtherChecks, row, n);
    }
  }

  /** A patient whose only complication flag is a cardiac arrest gets one high-risk item. */
  lemma OnlyCardiacArrest(row: Row)
    requires EqualsInt(GetPatientValue(row, "CompCardArrest", Zero), 1)
    requires forall c :: c in ComplicationChecks[1..] ==> !Fires(c, row)
    ensures |ListFor(ComplicationChecks, row)| == 1
    ensures ListFor(ComplicationChecks, row)[0].title == "Cardiac Arrest"
    ensures ListFor(ComplicationChecks, row)[0].risk == High
    ensures ListFor(ComplicationChecks, row)[0].details
         == Fields([Detail("Date/Time", GetPatientValue(row, "CardArrestDtTm", NotAvailable))])
  {
    var first, rest := ComplicationChecks[0], ComplicationChecks[1..];
    assert ComplicationChecks == [first] + rest;
    NotificationsConcat([first], rest, row);
    EmptyIffNoneFires(rest, row);
    assert first.column == "CompCardArrest" && first.rule == EqualsOne(Zero);
    assert Fires(first, row);
    assert ListFor([first], row) == CheckFirst([first], 0, row) + Entry(first, row);
  }

  /**
   * On a loaded row, the genetic-syndrome block fires exactly when the term
   * column exists and is not the no-syndrome sentinel, and the fetal-drug block fires
   * exactly when it reads "Fetal drug exposure"; the second implies the first.
   */
  lemma LoadedRowComorbidities(app: Loader.App, row: Row, hasTerm: bool)
    ensures var r := Loader.DeriveRow(app, row, hasTerm);
      Fires(ComorbidityChecks[0], r) <==> hasTerm && Loader.SyndromePresent(CellAt(row, "SyndromeTerm"))
    ensures var r := Loader.DeriveRow(app, row, hasTerm);
      Fires(OtherChecks[0], r) <==> hasTerm && CellAt(row, "SyndromeTerm") == Text(Loader.FetalDrugTerm)
    ensures var r := Loader.DeriveRow(app, row, hasTerm);
      Fires(OtherChecks[0], r) ==> Fires(ComorbidityChecks[0], r)
  {
    Loader.DeriveRowSyndrome(app, row, hasTerm);
  }

  /** The complications list never holds more than its thirteen blocks. */
  lemma AtMostThirteenComplications(row: Row)
    ensures |ListFor(ComplicationChecks, row)| <= 13
  {
    EmptyIffNoneFires(ComplicationChecks, row);
  }

  /** A row that carries none of the flag columns yields three empty lists. */
  lemma NoFlagColumnsNoItems(row: Row)
    requires forall i :: 0 <= i < |ComplicationChecks| ==> ComplicationChecks[i].column !in row
    requires "Syndrome_Present_bool" !in row && "ChromAb" !in row && "Fetal_Drug_Exposure_label" !in row
    ensures ListFor(ComplicationChecks, row) == []
    ensures ListFor(ComorbidityChecks, row) == []
    ensures ListFor(OtherChecks, row) == []
  {
    assert forall i :: 0 <= i < |ComplicationChecks| ==> ComplicationChecks[i].rule == EqualsOne(Zero);
    forall c | c in ComplicationChecks
      ensures !Fires(c, row)
    {
      var i :| 0 <= i < |ComplicationChecks| && ComplicationChecks[i] == c;
    }
    forall c | c in ComorbidityChecks
      ensures !Fires(c, row)
    {
      assert c == ComorbidityChecks[0] || c == ComorbidityChecks[1];
    }
    assert !Fires(OtherChecks[0], row);
    EmptyIffNoneFires(ComplicationChecks, row);
    EmptyIffNoneFires(ComorbidityChecks, row);
    EmptyIffNoneFires(OtherChecks, row);
  }

  /**
   * A row whose flag columns all hold their cleared values (0, the syndrome
   * flag False, the fetal label "No") yields three empty lists.
   */
  lemma ClearedFlagsNoItems(row: Row)
    requires forall i :: 0 <= i < |ComplicationChecks| ==> CellAt(row, ComplicationChecks[i].column) == Zero
    requires CellAt(row, "Syndrome_Present_bool") == Flag(false) && CellAt(row, "ChromAb") == Zero
    requires CellAt(row, "Fetal_Drug_Exposure_label") == Text("No")
    ensures ListFor(ComplicationChecks, row) == []
    ensures ListFor(ComorbidityChecks, row) == []
    ensures ListFor(OtherChecks, row) == []
  {
    assert forall i :: 0 <= i < |ComplicationChecks| ==> ComplicationChecks[i].rule == EqualsOne(Zero);
    forall c | c in ComplicationChecks
      ensures !Fires(c, row)
    {
      var i :| 0 <= i < |ComplicationChecks| && ComplicationChecks[i] == c;
    }
    forall c | c in ComorbidityChecks
      ensures !Fires(c, row)
    {
      assert c == ComorbidityChecks[0] || c == ComorbidityChecks[1];
    }
    assert !Fires(OtherChecks[0], row);
    EmptyIffNoneFires(ComplicationChecks, row);
    EmptyIffNoneFires(ComorbidityChecks, row);
    EmptyIffNoneFires(OtherChecks, row);
  }

  /** A set reoperation flag shows as a medium-risk "Reoperation for Bleeding" item, whatever else is set. */
  lemma ReoperationListedAsMedium(row: Row)
    requires EqualsInt(GetPatientValue(row, "CompReopBleed", Zero), 1)
    ensures exists n :: n in ListFor(ComplicationChecks, row) &&
                        n.title == "Reoperation for Bleeding" && n.risk == Medium
  {
    var c := ComplicationChecks[3];
    assert c.column == "CompReopBleed" && c.rule == EqualsOne(Zero);
    ListsHaveDistinctTitles();
    ItemPresentIffFires(ComplicationChecks, c, row);
    assert ItemOf(c, row).title == "Reoperation for Bleeding";
  }
}
