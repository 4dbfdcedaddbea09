/**
 * The patient panel of team2.py: the patient is picked from a selector
 * whose options are the table's own identifiers, and the panel shows the
 * premature badge and the syndrome and fetal-drug fields of the selected
 * row. Every lookup uses team2's `get_patient_value`, so a column absent
 * from the row is a KeyError rather than a default.
 */
module PatientPanel {
  import opened Wrappers
  import opened Records
  import Loader

  /** Whether the "Premature" badge is drawn: the row's prematurity label reads "Yes". */
  function PrematureBadge(row: Row): (r: Result<bool, PyError>)
    ensures r.Failure? <==> "Premature_label" !in row
    ensures r.Success? ==> (r.value <==> row["Premature_label"] == Text("Yes"))
  {
    match GetPatientValueStrict(row, "Premature_label", Text("_"))
    case Failure(e) => Failure(e)
    case Success(v) => Success(v == Text("Yes"))
  }

  /** The "Syndrome Present" text: "Yes" when the flag, read with default False, is truthy. */
  function SyndromeLabel(row: Row): (r: Result<string, PyError>)
    ensures r.Failure? <==> "Syndrome_Present_bool" !in row
    ensures r.Success? ==> r.value == "Yes" || r.value == "No"
    ensures r.Success? ==> (r.value == "Yes" <==> Truthy(GetPatientValue(row, "Syndrome_Present_bool", Flag(false))))
    ensures r.Success? && row["Syndrome_Present_bool"] == Missing ==> r.value == "No"
  {
    match GetPatientValueStrict(row, "Syndrome_Present_bool", Flag(false))
    case Failure(e) => Failure(e)
    case Success(v) => Success(if Truthy(v) then "Yes" else "No")
  }

  /** The "Fetal Drug Exposure" text, read with default "No". */
  function FetalDrugLabel(row: Row): (r: Result<Cell, PyError>)
    ensures r.Failure? <==> "Fetal_Drug_Exposure_label" !in row
    ensures r.Success? ==> ReadsAs(r.value, row, "Fetal_Drug_Exposure_label", Text("No"))
    ensures r.Success? ==> r.value != Missing
  {
    GetPatientValueStrict(row, "Fetal_Drug_Exposure_label", Text("No"))
  }

  /** On a loaded row the badge is drawn exactly when the prematurity code equals 1. */
  lemma BadgeOnLoadedRow(row: Row, hasTerm: bool)
    ensures PrematureBadge(Loader.DeriveRow(Loader.Dashboard2, row, hasTerm)) ==
            Success(EqualsInt(CellAt(row, "Premature"), 1))
  {
  }

  /**
   * On a loaded row the syndrome field reads "Yes" exactly when the table has
   * a syndrome column and the row's term is not the no-syndrome sentinel, and
   * a fetal-drug "Yes" always comes with a syndrome "Yes".
   */
  lemma PanelOnLoadedRow(row: Row, hasTerm: bool)
    ensures var r := Loader.DeriveRow(Loader.Dashboard2, row, hasTerm);
            SyndromeLabel(r) == Success(if hasTerm && Loader.SyndromePresent(CellAt(row, "SyndromeTerm")) then "Yes" else "No")
    ensures var r := Loader.DeriveRow(Loader.Dashboard2, row, hasTerm);
            FetalDrugLabel(r) == Success(Text("Yes")) ==> SyndromeLabel(r) == Success("Yes")
  {
    Loader.DeriveRowSyndrome(Loader.Dashboard2, row, hasTerm);
  }

  /**
   * The selector offers the identifiers found in the table, so selecting
   * one of them never reaches the IndexError of an empty match, and yields
   * the first row carrying it.
   */
  lemma SelectedOptionFound(t: Table, i: nat, id: string)
    requires i < |t.rows| && "PatID" in t.rows[i] && t.rows[i]["PatID"] == Text(id)
    ensures SelectPatientStrict(t, id).Success?
    ensures HasId(SelectPatientStrict(t, id).value, id)
  {
    assert HasId(t.rows[i], id);
  }
}
