/**
 * `build_patient_data` of team1.py: select the patient's row, read the
 * summary fields with their defaults, build the three notification lists
 * and the shunt scatter. No dashboard data is built for an unknown patient.
 */
module Builder {
  import opened Wrappers
  import opened Records
  import opened Notifications
  import opened Scatter
  import Loader

  /** `get_patient_value`'s own default, used for the label columns. */
  const Underscore := Text("_")

  /** The `patient` entry; display formatting (" months", " kg") is not modelled. */
  datatype Patient = Patient(
    id: Cell, ageMonths: Cell, birthWeightKg: Cell,
    sex: Cell, race: Cell, ethnicity: Cell, birthStatus: Cell,
    shuntSizeMm: Cell, surgicalWeightKg: Cell, surgeryDate: Cell,
    weightGainKg: real)

  datatype ProcedureTimes = ProcedureTimes(cpbTime: Cell, crossClampTime: Cell)

  datatype DashboardData = DashboardData(
    patient: Patient, procedureTimes: ProcedureTimes,
    complications: seq<Notification>, comorbidities: seq<Notification>, other: seq<Notification>,
    scatter: ScatterData)

  /** A value Python can subtract: a number or a boolean. */
  predicate Numeric(c: Cell)
  {
    c.Num? || c.Flag?
  }

  /** A weight read with default 0, as a number. */
  function KgOrZero(row: Row, key: string): (w: real)
    requires Numeric(GetPatientValue(row, key, Zero))
    ensures key !in row || row[key] == Missing ==> w == 0.0
    ensures key in row && row[key].Num? ==> w == row[key].n
  {
    match GetPatientValue(row, key, Zero)
    case Num(n) => n
    case Flag(b) => if b then 1.0 else 0.0
  }

  /** The subtraction of the weights succeeds: neither weight holds text. */
  predicate WeightsNumeric(row: Row)
  {
    Numeric(GetPatientValue(row, "SurgWtKg", Zero)) && Numeric(GetPatientValue(row, "BirthWtKg", Zero))
  }

  /** The summary fields, each read with the default the source passes. */
  function PatientOf(row: Row, patientId: string): (p: Patient)
    requires WeightsNumeric(row)
    ensures HasId(row, patientId) ==> p.id == Text(patientId)
    ensures ReadsAs(p.id, row, "PatID", Text(patientId))
    ensures ReadsAs(p.ageMonths, row, "AgeAtSurgeryMonths", Zero)
    ensures ReadsAs(p.birthWeightKg, row, "BirthWtKg", Zero)
    ensures ReadsAs(p.sex, row, "Gender_label", Underscore)
    ensures ReadsAs(p.race, row, "Race_label", Underscore)
    ensures ReadsAs(p.ethnicity, row, "Ethnicity_label", Underscore)
    ensures ReadsAs(p.birthStatus, row, "Premature_label", Underscore)
    ensures ReadsAs(p.shuntSizeMm, row, "Shunt Size", Zero)
    ensures ReadsAs(p.surgicalWeightKg, row, "SurgWtKg", Zero)
    ensures ReadsAs(p.surgeryDate, row, "CardSurgDt", NotAvailable)
    ensures !p.id.Missing? && !p.ageMonths.Missing? && !p.birthWeightKg.Missing? && !p.sex.Missing?
         && !p.race.Missing? && !p.ethnicity.Missing? && !p.birthStatus.Missing?
         && !p.shuntSizeMm.Missing? && !p.surgicalWeightKg.Missing? && !p.surgeryDate.Missing?
    ensures p.weightGainKg == KgOrZero(row, "SurgWtKg") - KgOrZero(row, "BirthWtKg")
  {
    Patient(
      GetPatientValue(row, "PatID", Text(patientId)),
      GetPatientValue(row, "AgeAtSurgeryMonths", Zero),
      GetPatientValue(row, "BirthWtKg", Zero),
      GetPatientValue(row, "Gender_label", Underscore),
      GetPatientValue(row, "Race_label", Underscore),
      GetPatientValue(row, "Ethnicity_label", Underscore),
      GetPatientValue(row, "Premature_label", Underscore),
      GetPatientValue(row, "Shunt Size", Zero),
      GetPatientValue(row, "SurgWtKg", Zero),
      GetPatientValue(row, "CardSurgDt", NotAvailable),
      KgOrZero(row, "SurgWtKg") - KgOrZero(row, "BirthWtKg"))
  }

  /** The two procedure times, each read with default 0. */
  function TimesOf(row: Row): (p: ProcedureTimes)
    ensures ReadsAs(p.cpbTime, row, "CPBTm", Zero)
    ensures ReadsAs(p.crossClampTime, row, "XClampTm", Zero)
    ensures !p.cpbTime.Missing? && !p.crossClampTime.Missing?
  {
    ProcedureTimes(GetPatientValue(row, "CPBTm", Zero), GetPatientValue(row, "XClampTm", Zero))
  }

  /**
   * `build_patient_data`: None when no row carries the identifier, otherwise
   * the dashboard data of the first such row. The source needs the scatter
   * columns (else KeyError) and numeric weights (else TypeError) only once
   * a row has been found.
   */
  method BuildPatientData(patientId: string, t: Table) returns (data: Option<DashboardData>)
    requires SelectPatient(t, patientId).Some? ==> ScatterColumns <= t.columns
    requires SelectPatient(t, patientId).Some? ==> WeightsNumeric(SelectPatient(t, patientId).value)
    ensures data.None? <==> forall j :: 0 <= j < |t.rows| ==> !HasId(t.rows[j], patientId)
    ensures data.Some? ==> data.value.patient.id == Text(patientId)
    ensures data.Some? ==>
              var row := SelectPatient(t, patientId).value;
              data.value.patient == PatientOf(row, patientId) &&
              data.value.procedureTimes == TimesOf(row) &&
              data.value.complications == ListFor(ComplicationChecks, row) &&
              data.value.comorbidities == ListFor(ComorbidityChecks, row) &&
              data.value.other == ListFor(OtherChecks, row) &&
              data.value.scatter == ScatterOf(t, patientId)
  {
    var selected := SelectPatient(t, patientId);
    if selected.None? {
      return None;
    }
    var row := selected.value;
    var patient := PatientOf(row, patientId);
    var times := TimesOf(row);
    var complications, comorbidities, other := BuildNotifications(row);
    var scatter := ScatterOf(t, patientId);
    data := Some(DashboardData(patient, times, complications, comorbidities, other, scatter));
  }

  /** Both weights present: the gain is their difference; a missing birth weight counts as 0. */
  lemma WeightGainCases(row: Row, patientId: string)
    requires WeightsNumeric(row)
    ensures "SurgWtKg" in row && row["SurgWtKg"].Num? && "BirthWtKg" in row && row["BirthWtKg"].Num? ==>
              PatientOf(row, patientId).weightGainKg == row["SurgWtKg"].n - row["BirthWtKg"].n
    ensures "SurgWtKg" in row && row["SurgWtKg"].Num? && ("BirthWtKg" !in row || row["BirthWtKg"] == Missing) ==>
              PatientOf(row, patientId).weightGainKg == row["SurgWtKg"].n
    ensures ("SurgWtKg" !in row || row["SurgWtKg"] == Missing) && ("BirthWtKg" !in row || row["BirthWtKg"] == Missing) ==>
              PatientOf(row, patientId).weightGainKg == 0.0
  {
  }

  /**
   * On a loaded table the label fields are never the "_" default: they show
   * the labels of the codes in the row selected before loading.
   */
  lemma LoadedPatientLabels(t: Table, loaded: Table, patientId: string)
    requires WellFormed(t) && Loader.LoadAll(Loader.Dashboard1, t) == Success(loaded)
    requires SelectPatient(t, patientId).Some?
    ensures SelectPatient(loaded, patientId).Some?
    ensures forall row :: SelectPatient(loaded, patientId) == Some(row) && WeightsNumeric(row) ==>
              var p := PatientOf(row, patientId);
              var raw := SelectPatient(t, patientId).value;
              p.sex == Text(Loader.GenderLabel(CellAt(raw, "Gender"))) &&
              p.birthStatus == Text(Loader.PrematureLabel(Loader.Dashboard1, CellAt(raw, "Premature"))) &&
              p.race == Text(Loader.RaceLabel(CellAt(raw, "Race"))) &&
              p.ethnicity == Text(Loader.EthnicityLabel(CellAt(raw, "Ethnicity")))
  {
    Loader.SelectAfterLoad(Loader.Dashboard1, t, patientId);
  }
}
