/**
 * Patient rows as the dashboards see them once the CSV is in a dataframe:
 * a row is a dictionary from column name to cell, a table is its column set
 * and its rows in file order. Also the two variants of the missing-value
 * lookup (`get_patient_value` in team1.py and team2.py) and the first-match
 * record selection both dashboards use.
 */
module Records {
  import opened Wrappers

  /** One dataframe cell: NaN/None, a number, a text, or a boolean. */
  datatype Cell = Missing | Num(n: real) | Text(s: string) | Flag(b: bool)

  type Row = map<string, Cell>

  datatype Table = Table(columns: set<string>, rows: seq<Row>)

  /** The Python exceptions the core can raise. */
  datatype PyError = KeyError(key: string) | IndexError

  /** Every row of a dataframe has exactly the frame's columns, and its identifier is text. */
  predicate WellFormed(t: Table)
  {
    forall i :: 0 <= i < |t.rows| ==> t.rows[i].Keys == t.columns && IdIsText(t.rows[i])
  }

  /**
   * The identifier, where the row has one, is text: the table is taken
   * after `astype(str)`, which turns every identifier (a missing one
   * included, as "nan") into a string.
   */
  predicate IdIsText(row: Row)
  {
    "PatID" in row ==> row["PatID"].Text?
  }

  /** The cell under `key`, or a missing cell when the row has no such column. */
  function CellAt(row: Row, key: string): Cell
  {
    if key in row then row[key] else Missing
  }

  /**
   * The integer a cell is equal to under Python's `==`: an integral float
   * equals that integer, and `False`/`True` equal 0 and 1.
   */
  function IntCode(c: Cell): Option<int>
  {
    match c
    case Num(n) => if n == n.Floor as real then Some(n.Floor) else None
    case Flag(b) => Some(if b then 1 else 0)
    case _ => None
  }

  /** Python's `c == k` for an integer literal `k`. */
  predicate EqualsInt(c: Cell, k: int)
  {
    match c
    case Num(n) => n == k as real
    case Flag(b) => k == (if b then 1 else 0)
    case _ => false
  }

  /** A cell equals an integer exactly when that integer is its code. */
  lemma EqualsIntIsIntCode(c: Cell, k: int)
    ensures EqualsInt(c, k) <==> IntCode(c) == Some(k)
  {
  }

  /** Python's truth value of a cell (a NaN float is truthy). */
  predicate Truthy(c: Cell)
  {
    match c
    case Missing => true
    case Num(n) => n != 0.0
    case Text(s) => s != ""
    case Flag(b) => b
  }

  /**
   * `v` is what a lookup of `key` with `default` shows: the stored value
   * when present and not missing, the default otherwise.
   */
  predicate ReadsAs(v: Cell, row: Row, key: string, default: Cell)
  {
    (key in row && !row[key].Missing? ==> v == row[key]) &&
    (key !in row || row[key].Missing? ==> v == default)
  }

  /**
   * `get_patient_value` of team1.py: `data.get(key)`, so an absent column
   * reads as missing, and a missing value is replaced by the default.
   */
  function GetPatientValue(row: Row, key: string, default: Cell): (v: Cell)
    ensures key in row && !row[key].Missing? ==> v == row[key]
    ensures key !in row || row[key].Missing? ==> v == default
    ensures !default.Missing? ==> !v.Missing?
  {
    var val := CellAt(row, key);
    if val.Missing? then default else val
  }

  /**
   * `get_patient_value` of team2.py: `data[key]`, so an absent column is a
   * KeyError rather than the default.
   */
  function GetPatientValueStrict(row: Row, key: string, default: Cell): (r: Result<Cell, PyError>)
    ensures r.Failure? <==> key !in row
    ensures r.Failure? ==> r.error == KeyError(key)
    ensures r.Success? && !row[key].Missing? ==> r.value == row[key]
    ensures r.Success? && row[key].Missing? ==> r.value == default
  {
    if key !in row then Failure(KeyError(key))
    else
      var val := row[key];
      if val.Missing? then Success(default) else Success(val)
  }

  /** The two lookups agree on every column the row has. */
  lemma LookupsAgreeOnPresentColumns(row: Row, key: string, default: Cell)
    requires key in row
    ensures GetPatientValueStrict(row, key, default) == Success(GetPatientValue(row, key, default))
  {
  }

  /** `df["PatID"] == patient_id` for one row. */
  predicate HasId(row: Row, key: string)
  {
    "PatID" in row && row["PatID"] == Text(key)
  }

  /** Index of the first row whose identifier is `key`, if any. */
  function FirstMatch(rows: seq<Row>, key: string): (r: Option<nat>)
    ensures r.Some? ==> r.value < |rows| && HasId(rows[r.value], key)
    ensures r.Some? ==> forall j :: 0 <= j < r.value ==> !HasId(rows[j], key)
    ensures r.None? ==> forall j :: 0 <= j < |rows| ==> !HasId(rows[j], key)
  {
    if rows == [] then None
    else if HasId(rows[0], key) then Some(0)
    else
      match FirstMatch(rows[1..], key)
      case None => None
      case Some(i) => Some(i + 1)
  }

  /** Two row sequences that agree, row by row, on who matches the key have the same first match. */
  lemma FirstMatchAgree(a: seq<Row>, b: seq<Row>, key: string)
    requires |a| == |b|
    requires forall i :: 0 <= i < |a| ==> (HasId(a[i], key) <==> HasId(b[i], key))
    ensures FirstMatch(a, key) == FirstMatch(b, key)
  {
  }

  /**
   * Record selection of team1.py: the first row with the identifier, or
   * None ("Patient ID not found") when there is none.
   */
  function SelectPatient(t: Table, key: string): (r: Option<Row>)
    ensures r.None? <==> forall j :: 0 <= j < |t.rows| ==> !HasId(t.rows[j], key)
    ensures r.Some? ==> HasId(r.value, key)
    ensures forall i ::
              (0 <= i < |t.rows| && HasId(t.rows[i], key) &&
               (forall j :: 0 <= j < i ==> !HasId(t.rows[j], key))) ==> r == Some(t.rows[i])
  {
    match FirstMatch(t.rows, key)
    case None => None
    case Some(i) => Some(t.rows[i])
  }

  /**
   * Record selection of team2.py: `.iloc[0]` of the matching rows, which
   * raises an IndexError when nothing matches.
   */
  function SelectPatientStrict(t: Table, key: string): (r: Result<Row, PyError>)
    ensures r.Failure? <==> forall j :: 0 <= j < |t.rows| ==> !HasId(t.rows[j], key)
    ensures r.Failure? ==> r.error == IndexError
    ensures r.Success? ==> SelectPatient(t, key) == Some(r.value)
  {
    match FirstMatch(t.rows, key)
    case None => Failure(IndexError)
    case Some(i) => Success(t.rows[i])
  }
}
