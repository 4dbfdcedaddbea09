/**
 * The derived label columns both dashboards compute right after reading the
 * CSV (`load_all_data` in team1.py, module level in team2.py). Each derived
 * column is a per-row function of one source cell; the loader adds them to
 * every row. The two apps differ only in the prematurity labels.
 */
module Loader {
  import opened Wrappers
  import opened Records

  /** Which dashboard is loading: team1.py or team2.py. */
  datatype App = Dashboard1 | Dashboard2

  const GenderMap: map<int, string> := map[0 := "Girl", 1 := "Boy"]
  const PrematureMap1: map<int, string> := map[0 := "Normal", 1 := "Early"]
  const PrematureMap2: map<int, string> := map[0 := "No", 1 := "Yes"]
  const RaceMap: map<int, string> :=
    map[1 := "White", 2 := "Black", 3 := "Asian", 4 := "American Indian",
        5 := "Native Hawaiian", 6 := "Other Pacific Islander"]
  const EthnicityMap: map<int, string> :=
    map[0 := "Non-Hispanic", 1 := "Hispanic/Latino", 2 := "Other/Unknown"]

  const UnknownLabel := "Unknown"
  const OtherUnknownLabel := "Other/Unknown"

  /** Sentinel values of the `SyndromeTerm` column. */
  const NoSyndromeTerm := "No syndromic abnormality identified"
  const FetalDrugTerm := "Fetal drug exposure"
  const ColumnNotFound := "Column Not Found"

  /** `series.map(m).fillna(fallback)` applied to one cell. */
  function MapCode(m: map<int, string>, fallback: string, c: Cell): string
  {
    match IntCode(c)
    case Some(k) => if k in m then m[k] else fallback
    case None => fallback
  }

  function GenderLabel(c: Cell): (name: string)
    ensures name == "Girl" <==> EqualsInt(c, 0)
    ensures name == "Boy" <==> EqualsInt(c, 1)
    ensures name == UnknownLabel <==> !EqualsInt(c, 0) && !EqualsInt(c, 1)
  {
    MapCode(GenderMap, UnknownLabel, c)
  }

  function PrematureLabel(app: App, c: Cell): (name: string)
    ensures app == Dashboard1 ==> (name == "Normal" <==> EqualsInt(c, 0))
    ensures app == Dashboard1 ==> (name == "Early" <==> EqualsInt(c, 1))
    ensures app == Dashboard2 ==> (name == "No" <==> EqualsInt(c, 0))
    ensures app == Dashboard2 ==> (name == "Yes" <==> EqualsInt(c, 1))
    ensures name == UnknownLabel <==> !EqualsInt(c, 0) && !EqualsInt(c, 1)
  {
    MapCode(if app == Dashboard1 then PrematureMap1 else PrematureMap2, UnknownLabel, c)
  }

  function RaceLabel(c: Cell): (name: string)
    ensures name == OtherUnknownLabel <==> !(IntCode(c).Some? && 1 <= IntCode(c).value <= 6)
    ensures name != OtherUnknownLabel ==> name == RaceMap[IntCode(c).value]
  {
    MapCode(RaceMap, OtherUnknownLabel, c)
  }

  function EthnicityLabel(c: Cell): (name: string)
    ensures name == "Non-Hispanic" <==> EqualsInt(c, 0)
    ensures name == "Hispanic/Latino" <==> EqualsInt(c, 1)
    ensures name == OtherUnknownLabel <==> !EqualsInt(c, 0) && !EqualsInt(c, 1)
  {
    MapCode(EthnicityMap, OtherUnknownLabel, c)
  }

  /** Every label column is total: any cell, missing or not, gets a non-empty label. */
  lemma LabelsNonEmpty(app: App, c: Cell)
    ensures GenderLabel(c) != "" && PrematureLabel(app, c) != ""
    ensures RaceLabel(c) != "" && EthnicityLabel(c) != ""
  {
  }

  /** The race label identifies the race code whenever it is not the fallback. */
  lemma RaceLabelDeterminesCode(a: Cell, b: Cell)
    requires RaceLabel(a) == RaceLabel(b) != OtherUnknownLabel
    ensures IntCode(a) == IntCode(b)
  {
  }

  /**
   * Ethnicity code 2 has the same label as the fallback, so a missing or
   * unmapped ethnicity cannot be told apart from code 2 once labelled.
   */
  lemma EthnicityCodeTwoLooksUnknown()
    ensures EthnicityLabel(Num(2.0)) == EthnicityLabel(Missing) == EthnicityLabel(Num(7.0))
  {
  }

  /** `df['SyndromeTerm'] != "No syndromic abnormality identified"` (NaN compares unequal). */
  predicate SyndromePresent(term: Cell)
  {
    term != Text(NoSyndromeTerm)
  }

  /** `"Yes" if x == "Fetal drug exposure" else "No"`. */
  function FetalDrugExposure(term: Cell): (name: string)
    ensures name == "Yes" <==> term == Text(FetalDrugTerm)
    ensures name == "Yes" ==> SyndromePresent(term)
    ensures name == "Yes" || name == "No"
  {
    if term == Text(FetalDrugTerm) then "Yes" else "No"
  }

  /** Names of the columns the loader adds. */
  const DerivedColumns: set<string> :=
    {"Gender_label", "Premature_label", "Race_label", "Ethnicity_label",
     "Syndrome_Present_bool", "Fetal_Drug_Exposure_label"}

  /** The cells the loader adds to (or overwrites in) one row. */
  function DerivedCells(app: App, row: Row, hasTerm: bool): (d: map<string, Cell>)
    ensures d.Keys == DerivedColumns + {"SyndromeTerm"}
  {
    var term := if hasTerm then CellAt(row, "SyndromeTerm") else Text(ColumnNotFound);
    map[
      "Gender_label" := Text(GenderLabel(CellAt(row, "Gender"))),
      "Premature_label" := Text(PrematureLabel(app, CellAt(row, "Premature"))),
      "Race_label" := Text(RaceLabel(CellAt(row, "Race"))),
      "Ethnicity_label" := Text(EthnicityLabel(CellAt(row, "Ethnicity"))),
      "SyndromeTerm" := term,
      "Syndrome_Present_bool" := Flag(hasTerm && SyndromePresent(term)),
      "Fetal_Drug_Exposure_label" := Text(if hasTerm then FetalDrugExposure(term) else "No")]
  }

  /**
   * One row after loading. `hasTerm` says whether the table has a
   * `SyndromeTerm` column; without it the column is filled with a
   * placeholder and both syndrome values default to false / "No".
   */
  function DeriveRow(app: App, row: Row, hasTerm: bool): (r: Row)
    ensures r.Keys == row.Keys + DerivedColumns + {"SyndromeTerm"}
    ensures forall k :: k in row && k !in DerivedColumns + {"SyndromeTerm"} ==> r[k] == row[k]
    ensures r["Gender_label"] == Text(GenderLabel(CellAt(row, "Gender")))
    ensures r["Premature_label"] == Text(PrematureLabel(app, CellAt(row, "Premature")))
    ensures r["Race_label"] == Text(RaceLabel(CellAt(row, "Race")))
    ensures r["Ethnicity_label"] == Text(EthnicityLabel(CellAt(row, "Ethnicity")))
  {
    row + DerivedCells(app, row, hasTerm)
  }

  /** The syndrome columns of a loaded row, with and without a `SyndromeTerm` column. */
  lemma DeriveRowSyndrome(app: App, row: Row, hasTerm: bool)
    ensures var r := DeriveRow(app, row, hasTerm);
      r["Fetal_Drug_Exposure_label"] == Text("Yes") ==> r["Syndrome_Present_bool"] == Flag(true)
    ensures var r := DeriveRow(app, row, hasTerm);
      hasTerm ==> r["SyndromeTerm"] == CellAt(row, "SyndromeTerm") &&
                  r["Syndrome_Present_bool"] == Flag(SyndromePresent(CellAt(row, "SyndromeTerm"))) &&
                  r["Fetal_Drug_Exposure_label"] == Text(FetalDrugExposure(CellAt(row, "SyndromeTerm")))
    ensures var r := DeriveRow(app, row, hasTerm);
      !hasTerm ==> r["SyndromeTerm"] == Text(ColumnNotFound) &&
                   r["Syndrome_Present_bool"] == Flag(false) &&
                   r["Fetal_Drug_Exposure_label"] == Text("No")
  {
  }

  /**
   * Loading the table: the identifier and the four coded columns must exist
   * (the first absent one, in the source's order, is reported as a KeyError);
   * otherwise every row gets its derived labels.
   */
  function LoadAll(app: App, t: Table): (r: Result<Table, PyError>)
    requires WellFormed(t)
    ensures r.Failure? <==> !({"PatID", "Gender", "Premature", "Race", "Ethnicity"} <= t.columns)
    ensures r.Failure? && "PatID" !in t.columns ==> r.error == KeyError("PatID")
    ensures r.Success? ==> WellFormed(r.value)
    ensures r.Success? ==> r.value.columns == t.columns + DerivedColumns + {"SyndromeTerm"}
    ensures r.Success? ==> |r.value.rows| == |t.rows|
    ensures r.Success? ==> forall i :: 0 <= i < |t.rows| ==>
              r.value.rows[i] == DeriveRow(app, t.rows[i], "SyndromeTerm" in t.columns)
  {
    if "PatID" !in t.columns then Failure(KeyError("PatID"))
    else if "Gender" !in t.columns then Failure(KeyError("Gender"))
    else if "Premature" !in t.columns then Failure(KeyError("Premature"))
    else if "Race" !in t.columns then Failure(KeyError("Race"))
    else if "Ethnicity" !in t.columns then Failure(KeyError("Ethnicity"))
    else
      var hasTerm := "SyndromeTerm" in t.columns;
      DerivedRowsWellFormed(app, t, hasTerm);
      Success(Table(t.columns + DerivedColumns + {"SyndromeTerm"},
                    seq(|t.rows|, i requires 0 <= i < |t.rows| => DeriveRow(app, t.rows[i], hasTerm))))
  }

  /** In a loaded table, fetal drug exposure "Yes" always comes with a syndrome present. */
  lemma FetalExposureImpliesSyndrome(app: App, t: Table, i: nat)
    requires WellFormed(t) && LoadAll(app, t).Success? && i < |t.rows|
    ensures var row := LoadAll(app, t).value.rows[i];
            row["Fetal_Drug_Exposure_label"] == Text("Yes") ==> row["Syndrome_Present_bool"] == Flag(true)
  {
  }

  /** The "no syndrome" sentinel gives false / "No"; the drug sentinel gives true / "Yes". */
  lemma SentinelRows(app: App, row: Row)
    requires "SyndromeTerm" in row
    ensures row["SyndromeTerm"] == Text(NoSyndromeTerm) ==>
              DeriveRow(app, row, true)["Syndrome_Present_bool"] == Flag(false) &&
              DeriveRow(app, row, true)["Fetal_Drug_Exposure_label"] == Text("No")
    ensures row["SyndromeTerm"] == Text(FetalDrugTerm) ==>
              DeriveRow(app, row, true)["Syndrome_Present_bool"] == Flag(true) &&
              DeriveRow(app, row, true)["Fetal_Drug_Exposure_label"] == Text("Yes")
  {
  }

  /** Without a SyndromeTerm column every loaded row reads false / "No". */
  lemma AbsentSyndromeColumn(app: App, t: Table)
    requires WellFormed(t) && "SyndromeTerm" !in t.columns && LoadAll(app, t).Success?
    ensures forall i :: 0 <= i < |t.rows| ==>
              LoadAll(app, t).value.rows[i]["Syndrome_Present_bool"] == Flag(false) &&
              LoadAll(app, t).value.rows[i]["Fetal_Drug_Exposure_label"] == Text("No")
  {
  }

  /** Every derived row has the loaded table's columns and keeps its text identifier. */
  lemma DerivedRowsWellFormed(app: App, t: Table, hasTerm: bool)
    requires WellFormed(t)
    ensures forall i :: 0 <= i < |t.rows| ==>
              DeriveRow(app, t.rows[i], hasTerm).Keys == t.columns + DerivedColumns + {"SyndromeTerm"} &&
              IdIsText(DeriveRow(app, t.rows[i], hasTerm))
  {
    assert "PatID" !in DerivedColumns + {"SyndromeTerm"};
  }

  /** Loading keeps every identifier, so a row matches a key after loading exactly when it did before. */
  lemma LoadKeepsIds(app: App, row: Row, hasTerm: bool, key: string)
    ensures HasId(DeriveRow(app, row, hasTerm), key) <==> HasId(row, key)
  {
    assert "PatID" !in DerivedColumns + {"SyndromeTerm"};
  }

  /** Selecting after loading picks the loaded version of the row selected before loading. */
  lemma SelectAfterLoad(app: App, t: Table, key: string)
    requires WellFormed(t) && LoadAll(app, t).Success?
    ensures SelectPatient(LoadAll(app, t).value, key).None? <==> SelectPatient(t, key).None?
    ensures SelectPatient(t, key).Some? ==>
              SelectPatient(LoadAll(app, t).value, key) ==
              Some(DeriveRow(app, SelectPatient(t, key).value, "SyndromeTerm" in t.columns))
  {
    var loaded := LoadAll(app, t).value;
    var hasTerm := "SyndromeTerm" in t.columns;
    forall i | 0 <= i < |t.rows|
      ensures HasId(loaded.rows[i], key) <==> HasId(t.rows[i], key)
    {
      assert loaded.rows[i] == DeriveRow(app, t.rows[i], hasTerm);
      LoadKeepsIds(app, t.rows[i], hasTerm, key);
    }
    FirstMatchAgree(loaded.rows, t.rows, key);
    var m := FirstMatch(t.rows, key);
    if m.Some? {
      assert SelectPatient(loaded, key) == Some(loaded.rows[m.value]);
      assert SelectPatient(t, key) == Some(t.rows[m.value]);
    }
  }
}
