# Floor-area estimation from dwellings and GVA projections

This project models, in Dafny, the domain logic of `estimate-floor-area.py`.
The script estimates residential and non-residential floor area for UK local
authority districts (`lad_uk_2016`) across future timesteps.

- `estimate_floor_area` joins a dwellings projection `(timestep, lad_uk_2016, dwellings)`
  with a GVA projection `(timestep, lad_uk_2016, gva)` on the pair `(timestep, lad_uk_2016)`.
  It is an inner join that fans out on duplicate keys.
- It sets `residential = dwellings × 85` and `non_residential = gva × 1`.
- It keeps the four columns `timestep, lad_uk_2016, residential, non_residential`.
- It melts them into long form `(timestep, lad_uk_2016, residential_or_non, floor_area)`:
  first the whole `residential` column, then the whole `non_residential` column.
- `main` derives a scenario key from each dwellings file's basename by deleting
  `arc_dwellings__` and `.csv`. It remaps two keys to the economics scenario whose
  GVA file it reads, and names the output file after the key.

Files:

- `floor_area.dfy`, module `FloorArea`: the row records, the join (`Merge`),
  the two formulas (`ResidentialArea`, `NonResidentialArea`), the projection (`Widen`),
  the melt (`Melt`) and its inverse (`Unmelt`), the whole pipeline (`EstimateFloorArea`),
  and the lemmas about them.
- `scenario_keys.dfy`, module `ScenarioKeys`: Python's `str.replace` (`Replace`),
  the key extraction (`ScenarioKey`), the economics-key remapping (`EconKey`),
  the GVA and output file basenames, and the lemmas about them.

Everything is modelled as pure functions on sequences of records.
In the source, `estimate_floor_area` adds two columns to the merged frame in place and then rebinds it to the melted frame.
Nothing else observes that frame, so a value transformation has the same meaning.

Behaviour of this version of the script that the model keeps as written:

- It applies a flat 85 m² per dwelling. It has no base year, no new-build
  dwellings and no per-scenario future dwelling size, so the model has none either.
  In `EstimateExample` the 2025 residential area is therefore 120 × 85 = 10200.
- The economics key is remapped only on an exact match of `3-new-cities23` or
  `4-expansion23`, not for every key that contains `new-cities`.
- The output basename is `arc_floor_area__<key>.csv`, with no future-scenario part.
- The key extraction deletes `.csv` wherever it occurs, not only at the end. So two dwellings
  files can get the same key: `arc_dwellings__a.csv.csv` and `arc_dwellings__a.csv` both give `a`.
  Both then read `arc_gva__a.csv`, and the second write replaces the first output
  `arc_floor_area__a.csv` (`ScenarioKeyCollision`).

## Model

| member | source | states |
|---|---|---|
| FloorArea.EstimateFloorArea | estimate-floor-area.py:46-58 | `estimate_floor_area`: join, both floor areas, projection and melt; its result has twice the per-key match total of rows (more in EstimateRowCount, EstimateLayout, EstimateLabels, EstimateProvenance, EstimateCompleteness, EstimateDropsUnmatched) |
| FloorArea.ResidentialArea | estimate-floor-area.py:48 | residential floor area is 85 × dwellings, and is non-negative for a non-negative dwelling count |
| FloorArea.NonResidentialArea | estimate-floor-area.py:49 | non-residential floor area equals the GVA, the coefficient being 1 |
| FloorArea.Widen | estimate-floor-area.py:48-51 | one wide row per joined row, with its (timestep, district), 85 × dwellings and the GVA |
| FloorArea.Cell | estimate-floor-area.py:52-56 | a melted cell keeps the wide row's (timestep, district) and carries the label and value of its column |
| FloorArea.MeltColumn | estimate-floor-area.py:52-56 | one stacked column has one row per wide row, in order: row i is wide row i's cell |
| FloorArea.Melt | estimate-floor-area.py:52-56 | the melt has twice as many rows, the first half labelled `residential` and the second half `non_residential` |
| FloorArea.Column.Name | estimate-floor-area.py:50-56 | the melted category label is `residential` or `non_residential`, and `residential` exactly for the residential column |
| FloorArea.MatchesOf | estimate-floor-area.py:47 | one dwellings row meets at most as many rows as the GVA table has |
| FloorArea.Merge | estimate-floor-area.py:47 | the join has no more rows than the cross product of the two tables, however keys repeat |
| FloorArea.Unmelt | estimate-floor-area.py:50-56 | pivoting a long table of even length back gives half as many wide rows |
| FloorArea.MatchesOfCount | estimate-floor-area.py:47 | one dwellings row contributes exactly as many joined rows as there are GVA rows with its key |
| FloorArea.MergeCount | estimate-floor-area.py:47 | the join size is the sum, over dwellings rows, of the number of GVA rows sharing that row's (timestep, district) |
| FloorArea.MergeCountDistinct | estimate-floor-area.py:47 | with distinct GVA keys, the join has one row per dwellings row that has a partner, so no more rows than the dwellings table |
| FloorArea.MatchesOfMembership | estimate-floor-area.py:47 | the rows a dwellings row contributes are exactly its combinations with same-key GVA rows |
| FloorArea.MergeMembership | estimate-floor-area.py:47 | a row is in the join if and only if it combines a dwellings row and a GVA row with the same key |
| FloorArea.MeltLayout | estimate-floor-area.py:52-56 | the melt has 2n rows; row i is the residential cell and row i + n the non-residential cell of wide row i |
| FloorArea.MeltRoundTrip | estimate-floor-area.py:50-56 | pivoting the melted table back gives the wide table: no row lost or duplicated |
| FloorArea.EstimateRowCount | estimate-floor-area.py:47-56 | the result has twice as many rows as the join, i.e. twice the per-key match total |
| FloorArea.EstimateLayout | estimate-floor-area.py:46-56 | rows i and i + n share joined row i's (timestep, district); their floor areas are dwellings × 85 and gva × 1 = gva |
| FloorArea.EstimateLabels | estimate-floor-area.py:50-56 | the first half of the result is all `residential`, the second half all `non_residential` |
| FloorArea.EstimateProvenance | estimate-floor-area.py:46-58 | every result row has a dwellings row and a GVA row with its key; a residential row's area is that dwellings × 85, a non-residential row's that gva |
| FloorArea.EstimateCompleteness | estimate-floor-area.py:46-58 | every same-key pair of a dwellings row and a GVA row yields its residential row and its non-residential row |
| FloorArea.EstimateDropsUnmatched | estimate-floor-area.py:47 | a key missing from either input appears in no result row |
| FloorArea.EstimateExample | estimate-floor-area.py:46-58 | two timesteps of one district give the four long rows with areas 8500, 10200, 10 and 12, in melt order |
| ScenarioKeys.ScenarioKey | estimate-floor-area.py:28 | the key is the basename with every `arc_dwellings__` and then every `.csv` deleted, so never longer than the basename (more in ScenarioKeyDeletesEveryCsv, ScenarioKeyRoundTrip, ScenarioKeyCollision) |
| ScenarioKeys.GvaBasename | estimate-floor-area.py:31-37 | the GVA file read is `arc_gva__<override>.csv` for the two listed keys and `arc_gva__<key>.csv` otherwise |
| ScenarioKeys.OutputBasename | estimate-floor-area.py:43 | the output file is `arc_floor_area__<key>.csv`, from which the key can be read back |
| ScenarioKeys.ScenarioKeyDeletesEveryCsv | estimate-floor-area.py:28 | for any `k` without `arc_dwellings__`, the key of `arc_dwellings__<k>.csv` is `k + ".csv"` with every `.csv` deleted, not only the final extension |
| ScenarioKeys.ScenarioKeyCollision | estimate-floor-area.py:24-43 | the distinct files `arc_dwellings__a.csv.csv` and `arc_dwellings__a.csv` both get key `a` |
| ScenarioKeys.Replace | estimate-floor-area.py:28 | removing a pattern never makes a string longer |
| ScenarioKeys.ShiftOccurrence | estimate-floor-area.py:28 | an occurrence in the tail of a string is an occurrence in the string one index on, and back |
| ScenarioKeys.AbsentInTail | estimate-floor-area.py:28 | a pattern absent from a string is absent from its tail |
| ScenarioKeys.ReplaceAbsent | estimate-floor-area.py:28 | replacing a pattern that does not occur leaves the string unchanged |
| ScenarioKeys.PrefixNotAcrossSuffix | estimate-floor-area.py:28 | `arc_dwellings__` cannot occur across the boundary with `.csv` |
| ScenarioKeys.StripCsvSuffix | estimate-floor-area.py:28 | deleting `.csv` from `k + ".csv"` gives `k` when `k` holds no `.csv` |
| ScenarioKeys.ScenarioKeyRoundTrip | estimate-floor-area.py:28 | the key of `arc_dwellings__<k>.csv` is `k` when `k` contains neither `arc_dwellings__` nor `.csv` |
| ScenarioKeys.ScenarioKeyInnerCsv | estimate-floor-area.py:28 | the deletion is not anchored: the key of `arc_dwellings__a.csvb.csv` is `ab` |
| ScenarioKeys.EconKey | estimate-floor-area.py:31-36 | the economics key is the override table's entry for the two listed keys and the key itself otherwise |
| ScenarioKeys.EconKeyExact | estimate-floor-area.py:31-36 | a key is changed if and only if it is exactly `3-new-cities23` or `4-expansion23` |
| ScenarioKeys.EconKeyIdempotent | estimate-floor-area.py:31-36 | remapping an already remapped key changes nothing |
| ScenarioKeys.SharedGvaFiles | estimate-floor-area.py:31-37 | `3-new-cities23` reads `arc_gva__1-new-cities.csv` and `4-expansion23` reads `arc_gva__2-expansion.csv`, the same files as `1-new-cities` and `2-expansion` |
| ScenarioKeys.OutputBasenameInjective | estimate-floor-area.py:43 | distinct scenario keys write distinct output files (distinct dwellings files need not: see ScenarioKeyCollision) |
| ScenarioKeys.OutputBasenameOfDwellings | estimate-floor-area.py:28-43 | the dwellings file `arc_dwellings__<k>.csv` is written out as `arc_floor_area__<k>.csv` |

## Left out

- File discovery with `glob`, path joins with `os.path`, `pandas.read_csv` and `to_csv`, and the progress `print` calls in `main`: filesystem and CSV I/O. The model starts from a file basename and from already parsed tables.
- The per-file loop in `main`: it only drives the I/O above. Each iteration's pure steps are `ScenarioKey`, `EconKey`, `GvaBasename`, `EstimateFloorArea` and `OutputBasename`.
- Command-line handling and the bare `except` around `sys.argv`: process entry point.
- pandas dtypes, the index, extra input columns and floating point. Rows hold only the columns used, and values are exact `real`s.
- Merge: the row order with duplicate keys follows the nested order (dwellings rows in order, and each row's GVA matches in order). This is pandas' documented order for an inner merge; pandas before 2.2 could group equal left keys together instead. Row counts, membership and the melt layout do not depend on this order.
- Replace: models Python's `str.replace` only for a non-empty pattern. Its only uses here pass the constant patterns `arc_dwellings__` and `.csv`.
- A later version of the script, with a base year, new-build dwellings and per-scenario future dwelling sizes, is not part of this model. `estimate-floor-area.py` has none of that logic.
