# Pediatric cardiac dashboards — record logic in Dafny

This project models the record logic behind two Streamlit dashboards for
infants after cardiac surgery. `team1.py` is the full dashboard and
`team2.py` a second, single-page variant. Both read a table of patients.
Both add label columns derived from coded columns, pick one patient's row,
and read that row's fields with a missing-value default. From the row,
team1 builds three notification lists, a patient summary and a
shunt-size scatter, and it colours several cards by fixed thresholds.
team2 shows a panel of labels and computes a clamped risk score with a
gauge needle.

A row is a map from column names to cells. A cell is a number, a text, a
boolean, or missing (NaN). Python's `==` between a cell and an integer
literal is modelled exactly: `True == 1` and `1.0 == 1` hold. A column
absent from a row is told apart from a missing value, because the two
apps treat it differently. team1's lookup gives the default. team2's
lookup raises a KeyError, modelled as a `Result`.

Modules, one per concern of the source:

- `Wrappers`: `Option` and `Result`.
- `Records`: cells, rows and tables, the two `get_patient_value` lookups, and first-match patient selection.
- `Loader`: the code-to-label maps, the syndrome columns, and loading a table for either app.
- `Bands`: the Low/Medium/High threshold rules.
- `Notifications`: the guarded blocks of `build_patient_data` as an ordered table of checks, plus the method that runs them.
- `Scatter`: the `dropna` filter, the three parallel lists, the numbered points and the current/others split.
- `Builder`: `build_patient_data` as a whole.
- `RiskGauge`: team2's weighted score and needle angle, in half points.
- `PatientPanel`: team2's premature badge, syndrome fields and patient selector.

In the notification builder the source writes sixteen `if` blocks in a
row, each appending one item. The model keeps the same blocks, in the
same order and with the same strings, as data: one `Check` record per
block. `Notifications.AppendTriggered` walks them with a loop that
appends the item of each block that fires. `Notifications.Fired`
keeps the blocks that fire, and its contract states which blocks those
are. Lemmas tie each list to it: one item per firing block, and a
block's item is listed exactly when it fires.

## Model

| member | source | states |
|---|---|---|
| Records.GetPatientValue | team1.py:21-25 | A missing value or an absent column gives the default; otherwise the stored value comes back unchanged. A non-missing default never yields a missing result. |
| Records.GetPatientValueStrict | team2.py:14-18 | An absent column is a KeyError naming that column. On a present column a missing value gives the default, and any other value comes back unchanged. |
| Records.LookupsAgreeOnPresentColumns | team2.py:14-18 | On a column the row has, the team2 lookup succeeds with exactly the team1 result. |
| Records.EqualsIntIsIntCode | team1.py:111-162 | Python's `cell == k` holds exactly when the cell's integer code is k. An integral float and a boolean each have one code. |
| Records.FirstMatch | team1.py:80 | The index returned is the first row whose PatID text equals the key. No index means no row matches. |
| Records.FirstMatchAgree | team1.py:80 | Two tables whose rows match the key at the same positions give the same first match. |
| Records.SelectPatient | team1.py:79-83 | None exactly when no row carries the identifier. Otherwise the result is the first row that does. |
| Records.SelectPatientStrict | team2.py:302 | An IndexError exactly when no row matches. Otherwise the same row as team1's selection. |
| Bands.ComputeRiskLabel | team1.py:253-256 | Low exactly for scores ≤ 30, Medium exactly for 31..70, High exactly above 70. |
| Bands.RiskLabelMonotone | team1.py:253-256 | A higher score never gets a lower label. |
| Bands.CountRisk | team1.py:444-447 | Low exactly for 0 active items, Medium exactly for 1 or 2, High exactly for more. |
| Bands.CountRiskMonotone | team1.py:444-447 | More active items never give a lower badge. |
| Bands.WeightRisk | team1.py:401-405 | High exactly below 3.0 kg, Medium exactly for 3.0 up to but not including 3.5 kg, Low from 3.5 kg. |
| Bands.WeightRiskAntitone | team1.py:401-405 | A heavier infant never gets a higher weight risk. |
| Bands.DurationMatchesRiskLabel | team1.py:501-504 | The colour band of a procedure duration uses exactly the cut-offs of the overall risk label. |
| Loader.GenderLabel | team1.py:33 | "Girl" exactly for code 0, "Boy" exactly for code 1, and "Unknown" for everything else, missing included. |
| Loader.PrematureLabel | team1.py:34 | "Normal"/"Early" for team1 and "No"/"Yes" for team2 (team2.py:22), each exactly for codes 0/1. "Unknown" for everything else. |
| Loader.RaceLabel | team1.py:35-36 | The fallback "Other/Unknown" exactly when the code is not an integer in 1..6. Otherwise the race map's label for that code. |
| Loader.EthnicityLabel | team1.py:38-39 | "Non-Hispanic" exactly for code 0 and "Hispanic/Latino" exactly for code 1. Code 2 and every other value give "Other/Unknown". |
| Loader.LabelsNonEmpty | team1.py:33-39 | Every label function is total and yields a non-empty label, in both apps. |
| Loader.RaceLabelDeterminesCode | team1.py:35-36 | Two cells with the same non-fallback race label have the same code, so the map loses no information. |
| Loader.EthnicityCodeTwoLooksUnknown | team1.py:38-39 | Code 2, a missing value and an unmapped code all read "Other/Unknown" once labelled. |
| Loader.FetalDrugExposure | team1.py:43-44 | The label is "Yes" or "No". It is "Yes" exactly when the term is "Fetal drug exposure", and such a term also counts as a syndrome. |
| Loader.DerivedCells | team1.py:33-49 | The loader writes exactly the six derived columns plus SyndromeTerm. |
| Loader.DeriveRow | team1.py:33-49 | A loaded row keeps every original column except those the loader writes. Its four label columns hold the labels of the row's codes. |
| Loader.DeriveRowSyndrome | team1.py:41-49 | With a SyndromeTerm column, syndrome-present is "term ≠ no-syndrome sentinel" and fetal exposure is the term's label. Without one, the term is the placeholder and the values are False/"No". Fetal "Yes" implies syndrome present. |
| Loader.LoadAll | team1.py:29-58 | Loading fails exactly when PatID or a coded column is absent, naming PatID first. Otherwise each row is replaced by its derived row, in order, and the table stays well formed. |
| Loader.FetalExposureImpliesSyndrome | team1.py:41-49 | In a loaded table, a fetal-drug "Yes" always comes with syndrome present. |
| Loader.SentinelRows | team1.py:42-44 | The no-syndrome sentinel gives False/"No". The fetal-drug term gives True/"Yes". |
| Loader.AbsentSyndromeColumn | team1.py:45-49 | Without a SyndromeTerm column every loaded row reads False/"No". |
| Loader.DerivedRowsWellFormed | team1.py:31-49 | Every loaded row has the loaded table's columns and keeps its text identifier. |
| Loader.LoadKeepsIds | team1.py:31-49 | A row matches an identifier after loading exactly when it did before. |
| Loader.SelectAfterLoad | team1.py:80 | Selecting in the loaded table finds a row exactly when selecting in the raw table does. The row found is the loaded version of the raw row. |
| Notifications.RenderLine | team1.py:112-153 | A companion field shows its value, or "N/A" when missing or absent. The stroke line shows "Yes" exactly when the hemorrhage flag equals 1, and otherwise "No". |
| Notifications.Render | team1.py:116-152 | A block's details have one line per template line, in order. |
| Notifications.AppendTriggered | team1.py:110-178 | The list built by running the blocks in order, appending the item of each block that fires, is the list the checks specify. |
| Notifications.BuildNotifications | team1.py:104-178 | Complications, comorbidities and other each come from their own blocks, in the source order. |
| Notifications.FiredFirst | team1.py:110-165 | Among a prefix of the blocks, the result holds exactly those that fire. It is no longer than the prefix. |
| Notifications.Fired | team1.py:110-178 | The result holds exactly the blocks that fire. It is no longer than the blocks. |
| Notifications.ItemsOfFiredFirst | team1.py:110-165 | The items after k blocks correspond one-to-one, in order, to the blocks among the first k that fired. |
| Notifications.ItemsOfFired | team1.py:110-178 | The i-th item of a list is the item of the i-th block that fired: one item per triggered flag, in check order. |
| Notifications.ComplicationTitlesDistinct | team1.py:110-165 | The thirteen complication blocks carry thirteen different titles. |
| Notifications.LaterTitlesNew | team1.py:166-178 | The comorbidity and other titles differ from each other and from every complication title. |
| Notifications.TablesHaveDistinctTitles | team1.py:111-178 | No two of the sixteen blocks share a title. |
| Notifications.ListsHaveDistinctTitles | team1.py:111-178 | Titles are distinct within each of the three lists. |
| Notifications.ItemPresentIffFires | team1.py:110-178 | A block's item is in its list exactly when the block's flag fires. |
| Notifications.EmptyIffNoneFires | team1.py:110-178 | A list is empty exactly when none of its flags fires. It never has more items than blocks. |
| Notifications.CheckFirstAgree | team1.py:110-165 | Runs over blocks with the same prefix build the same prefix list. |
| Notifications.CheckFirstConcat | team1.py:110-178 | Running one run of blocks and then part of another appends that part's items after the first run's list. |
| Notifications.NotificationsConcat | team1.py:110-178 | Running two runs of blocks back to back concatenates their lists. |
| Notifications.ItemRisks | team1.py:110-178 | Every item in a list is the fixed item (title, subtext, risk) of one block of that list that fired. |
| Notifications.ComorbiditiesAndOtherAreMedium | team1.py:166-178 | Every comorbidity and other item is of Medium risk. |
| Notifications.OnlyCardiacArrest | team1.py:111-113 | With only the cardiac-arrest flag set, the complications list is one High "Cardiac Arrest" item. Its Date/Time shows the arrest time, or "N/A". |
| Notifications.LoadedRowComorbidities | team1.py:167-178 | On a loaded row, the syndrome block fires exactly when the table has a term column and the term is not the sentinel. The fetal block fires exactly for the fetal-drug term and implies the syndrome block. |
| Notifications.AtMostThirteenComplications | team1.py:110-165 | The complications list has at most 13 items. |
| Notifications.NoFlagColumnsNoItems | team1.py:110-178 | A row without any of the flag columns gives three empty lists. |
| Notifications.ClearedFlagsNoItems | team1.py:110-178 | A row whose flag columns are present and cleared gives three empty lists. Cleared means every flag is 0, the syndrome flag is False and the fetal label is "No". |
| Notifications.ReoperationListedAsMedium | team1.py:125-127 | A set reoperation flag always puts a Medium "Reoperation for Bleeding" item in the complications, whatever else is set. |
| Scatter.CompleteRows | team1.py:184 | The kept rows are exactly the rows whose identifier, surgical weight and shunt size are all present. |
| Scatter.IdNeverDropped | team1.py:184 | Identifiers are text after loading, so `dropna` drops a row only for a missing weight or shunt size. |
| Scatter.CompleteRowsConcat | team1.py:184 | The filter distributes over concatenation, so kept rows keep their table order. |
| Scatter.AllCompleteKept | team1.py:184 | When every row is complete, nothing is dropped. |
| Scatter.CompleteRowsKeepsAll | team1.py:184 | Nothing is dropped exactly when every row is complete. Filtering twice drops nothing more. |
| Scatter.Column | team1.py:222-224 | One column of the kept rows, position by position. |
| Scatter.ScatterOf | team1.py:221-226 | The three lists have equal length, one entry per kept row. Entry i holds row i's identifier, weight and shunt, none missing. The current identifier is the selected one. |
| Scatter.Points | team1.py:541-543 | Point i is numbered i + 1 and carries the i-th entry of each list. |
| Scatter.Current | team1.py:556 | The highlighted points are exactly those whose identifier equals the current patient's. |
| Scatter.Others | team1.py:553 | The "Other Patients" points are exactly the rest. |
| Scatter.CurrentOthersPartition | team1.py:553-556 | Current and others partition the points: as multisets they add up to all points. |
| Scatter.HighlightedRowExists | team1.py:556 | A highlighted point comes from a complete row carrying the current identifier. |
| Scatter.CompleteRowHighlighted | team1.py:556 | A complete row carrying the current identifier yields a highlighted point. |
| Scatter.HighlightIffCompleteRow | team1.py:184 | The current patient is highlighted exactly when a complete row of the table carries the identifier. |
| Builder.KgOrZero | team1.py:100-101 | A weight read with default 0: a missing or absent weight counts as 0, and a present number is taken as is. |
| Builder.PatientOf | team1.py:186-199 | Each summary field shows its column's stored value when present and not missing. Otherwise it shows the source's default: the selected id, "_" for labels, "N/A" for the date, 0 for numbers. So no field is missing, and the id is the selected identifier. The weight gain is surgical minus birth weight, each defaulting to 0. |
| Builder.TimesOf | team1.py:203-206 | CPB and cross-clamp times each show their stored value when present and not missing, and 0 otherwise. They are never missing. |
| Builder.BuildPatientData | team1.py:72-228 | None exactly when no row carries the identifier. Otherwise the summary, times, three lists and scatter of the first matching row. |
| Builder.WeightGainCases | team1.py:100-102 | Gain is surgical minus birth weight. A missing birth weight gives the surgical weight; both missing give 0. |
| Builder.LoadedPatientLabels | team1.py:190-193 | After loading, the selected patient's sex, birth status, race and ethnicity fields are the labels of the raw row's codes, never the "_" default. |
| RiskGauge.HalfWeight | team2.py:422 | Each of the six factors weighs 2..6 half points. Any other label weighs 0 (`weights.get(x, 0)`). |
| RiskGauge.WeightSum | team2.py:423 | A selection of only unknown labels sums to 0. |
| RiskGauge.WeightSumConcat | team2.py:423 | The sum of a concatenated selection is the sum of the parts. |
| RiskGauge.WeightSumCons | team2.py:423 | A factor put in front of a selection adds its weight to the sum. |
| RiskGauge.WeightSumRemove | team2.py:423 | Removing one factor removes its weight from the sum. |
| RiskGauge.WeightSumPermutation | team2.py:423 | Selections with the same factors, in any order, have the same sum. |
| RiskGauge.Score | team2.py:423 | The score lies in 0..10 points. It equals the plain sum when the sum is at most 10, and is 10 above that. |
| RiskGauge.ScorePoints | team2.py:423-424 | The printed score is half the half-point score and lies in 0.0..10.0. |
| RiskGauge.ExampleScores | team2.py:422-423 | Post-op bleed, premature and low birth weight give 7.5. All six factors give 10, clamped from 11.5. |
| RiskGauge.AddingNeverLowers | team2.py:422-423 | Adding a factor anywhere in the selection never lowers the score. |
| RiskGauge.UnknownFactorIgnored | team2.py:422-423 | A label outside the weight table leaves the score unchanged. |
| RiskGauge.ScoreOrderIndependent | team2.py:423 | The order of selection does not change the score. |
| RiskGauge.NeedleAngle | team2.py:306 | The angle lies in 0..180 and is a multiple of 9 degrees (18 per point). It is 180 at or below score 0 and 0 at or above score 10. |
| RiskGauge.NeedleAntitone | team2.py:306 | A higher score never raises the needle. |
| RiskGauge.NeedleOfSelection | team2.py:306 | For any selection the needle is 180 minus 9 degrees per half point. It is at 180 exactly when the score is 0. |
| PatientPanel.PrematureBadge | team2.py:328 | A KeyError exactly when the row has no prematurity label. Otherwise the badge shows exactly when the label reads "Yes". |
| PatientPanel.BadgeOnLoadedRow | team2.py:22 | On a loaded team2 row, the badge shows exactly when the prematurity code equals 1. |
| PatientPanel.SyndromeLabel | team2.py:459-460 | A KeyError exactly when the flag column is absent. Otherwise "Yes" or "No", "Yes" exactly when the flag (default False) is truthy. A missing flag reads "No". |
| PatientPanel.FetalDrugLabel | team2.py:464 | A KeyError exactly when the column is absent. Otherwise the stored label is shown unchanged, and a missing value reads "No", so the field is never missing. |
| PatientPanel.PanelOnLoadedRow | team2.py:30-38 | On a loaded team2 row, the syndrome field reads "Yes" exactly when the term column exists and the term is not the sentinel. A fetal "Yes" implies a syndrome "Yes". |
| PatientPanel.SelectedOptionFound | team2.py:298-302 | An identifier offered by the selector (taken from a row) always selects a row carrying it, so the IndexError cannot occur. |

By the weights at team2.py:422, post-op bleed, premature and low birth
weight sum to 3.0 + 2.5 + 2.0 = 7.5, and `RiskGauge.ExampleScores`
proves 7.5.

## Left out

- Streamlit layout, CSS, SVG and HTML generation (themes, cards, icons, badges' markup, the timeline): presentation only.
- CSV reading, caching, and the error reporting on a missing file: I/O. The table is a parameter. A missing coded column is modelled as the KeyError `Loader.LoadAll` returns.
- `PatID` conversion with `astype(str)` (team1.py:32, team2.py:13): a table is taken after the conversion. `Records.WellFormed` states that every identifier is text; a missing one is the text "nan". The conversion itself is not modelled, because its output for numeric identifiers depends on the column's type ("1023" or "1023.0").
- Builder.BuildPatientData: it requires the three scatter columns and numeric (or missing) weights once a row is found. It does not model the two crashes the source has otherwise: the KeyError of `df[['PatID', 'SurgWtKg', 'Shunt Size']]` when a column is absent (team1.py:184), and the TypeError of subtracting a text weight (team1.py:102).
- The warning printed when the `SyndromeTerm` column is absent (team1.py:46, team2.py:35): output only. The default values it announces are modelled in `Loader.DeriveRowSyndrome`.
- Notifications.RenderLine: details are structured as caption/value lines rather than the markdown strings (`**Date/Time:** …`) the source formats.
- Builder.PatientOf: does not round the weight gain to one decimal (`round(…, 1)`, team1.py:102), because float rounding is not modelled. The " months" and " kg" display suffixes are left out too.
- Builder.PatientOf: the avatar URL, `overall_risk_percent` and the `risk_breakdown` placeholders are constants with no logic.
- Bands.DurationMatchesRiskLabel: the duration band takes a whole number of minutes. The `int()` conversion of the procedure times (team1.py:497-498) is not modelled.
- The trend line (`np.polyfit`), the shunt-to-weight ratio and the `hrect` bounds: floating-point numerics in a library.
- The gauge's `cos`/`sin` needle endpoint (team2.py:308-309): trigonometry. Only the linear angle is modelled.
- Widget keys made with `uuid` and the theme chosen from session state: UI state and randomness.
- team2's abnormality text, the sex text and the timeline dates: plain lookups already covered by `Records.GetPatientValueStrict`. They are not modelled as separate members.
- The multiselect itself: the selection is a parameter, any sequence of labels.
