# Profile scanner: acquisition log and point-cloud reconstruction

This project models the two pieces of logic in a laser line-profile scanner's
scripts.

1. **The real-time acquisition tick** (`update` in
   `full_profiles_realtime_with_csv.py`). On each animation tick the script
   reads one raw profile from the sensor. A profile is accepted only when the
   read returned the whole buffer (`resolution * 64` bytes) and the
   conversion produced all three of the X, Z and MAXIMUM (intensity)
   channels. For an accepted profile the script:
   - increments the profile counter;
   - writes one CSV row `(Profile_Number, Point_Index, X, Z, Intensity)` per
     point;
   - flushes the file when the counter reaches a multiple of 10.

   Module `Acquisition` describes a tick by what the device returned
   (`Tick`). It folds `Step` over a sequence of ticks (`Run`) and tracks the
   counter, the data rows after the CSV header, and the counter value at each
   flush.
2. **The offline reconstruction** (`process_csv_add_y.py`). The script loads
   the logged table and counts the distinct `Profile_Number` values. It
   divides the stage travel (65 mm) by that count to get a step, and gives
   every row `Y = (Profile_Number - 1) * step`. It then writes an ASCII PLY
   file: a fixed seven-line header declaring `element vertex <rows>`, then
   one `X Y Z` line per row in row order. Module `Reconstruct` models this
   with exact `real` arithmetic. The file is a sequence of structured lines.
   The empty table is an explicit `DivisionByZero` error, which is where
   the script would raise `ZeroDivisionError`.

Module `Decimal` gives the decimal text of the vertex count in the header.
Module `Numbering` gives the profile-number range `{1, ..., n}`. Module
`Pipeline` feeds the acquisition log into the reconstruction: it turns
properties of the log into properties of the point cloud.

Three behaviours of the code are worth stating plainly:
- The profile count is the number of distinct `Profile_Number` values
  (`nunique`), not the largest profile number.
- Only the accepted-profile counter is reported at shutdown. Lost frames
  are not reported.
- There is no explicit flush at shutdown. The file is only closed in the
  `finally` block, and that block is not modelled (see below).

## Model

| member | source | states |
|---|---|---|
| `Acquisition.Step` | full_profiles_realtime_with_csv.py:108-132 | The counter goes up by one exactly when the read length equals the buffer length and X, Z and MAXIMUM are all set. Otherwise the state is unchanged: no rows and no flush. An accepted tick keeps the old rows as a prefix and appends `resolution` rows. Row i is `(new counter, i, x[i], z[i], intensities[i])`. A flush is appended exactly when the tick is accepted and the new counter is a multiple of 10, and it records that counter. |
| `Acquisition.Run` | full_profiles_realtime_with_csv.py:106-132 | Folding ticks from counter 0 never counts more profiles or flushes than there were ticks. |
| `Acquisition.AcceptedFrames` | full_profiles_realtime_with_csv.py:112-117 | Every accepted tick passed the length check and the three-flag check. There are no more of them than ticks, and they are well formed when the ticks are. |
| `Acquisition.AcceptedFramesExact` | full_profiles_realtime_with_csv.py:112-117 | The accepted ticks are exactly the ticks that pass both checks. Each is one of the ticks, and every tick that passes is among them. |
| `Acquisition.CounterCountsAccepted` | full_profiles_realtime_with_csv.py:147 | The total reported at shutdown equals the number of accepted ticks. |
| `Acquisition.Layout` | full_profiles_realtime_with_csv.py:125-126 | Laying N profiles end to end gives `resolution * N` rows. |
| `Acquisition.RowsAreAcceptedFramesInOrder` | full_profiles_realtime_with_csv.py:121-126 | The logged rows are exactly the accepted profiles, numbered 1, 2, 3, ... in acquisition order, each written in full. Rejected ticks leave no trace. |
| `Acquisition.LayoutAt` | full_profiles_realtime_with_csv.py:125-126 | Profile k+1 occupies positions `k*resolution .. k*resolution+resolution-1`. Position `k*resolution+i` holds point i with that profile's x, z and intensity. |
| `Acquisition.LayoutNumbering` | full_profiles_realtime_with_csv.py:125-126 | Position j of a layout is point `j % resolution` of profile `j / resolution + 1`. |
| `Acquisition.RowNumbering` | full_profiles_realtime_with_csv.py:121-126 | Row j of the log belongs to profile `j / resolution + 1` and is point `j % resolution`. It carries that accepted tick's converted values. |
| `Acquisition.LayoutProfiles` | full_profiles_realtime_with_csv.py:125-126 | A layout of N profiles uses exactly the profile numbers {1..N}. |
| `Acquisition.ProfileNumbersContiguous` | full_profiles_realtime_with_csv.py:106-126 | The set of `Profile_Number` values in the log is exactly {1..N}, where N is the counter. No number in that range is missing and none lies outside it, whatever rejected ticks came between. That each number labels one contiguous block of rows is stated by `Acquisition.RowNumbering`. |
| `Acquisition.ProfilesNondecreasing` | full_profiles_realtime_with_csv.py:125-126 | Profile numbers never decrease along the log, so every row of profile k comes before every row of a later profile. |
| `Acquisition.CsvShape` | full_profiles_realtime_with_csv.py:82 | The CSV has the header row `Profile_Number, Point_Index, X, Z, Intensity`, then `resolution * N` data rows and nothing else. |
| `Acquisition.FlushSchedule` | full_profiles_realtime_with_csv.py:128-129 | Flushes happen at counters 10, 20, 30, ..., so after N accepted profiles there have been exactly N / 10 of them. |
| `Acquisition.UnflushedBelowTen` | full_profiles_realtime_with_csv.py:128-129 | At any point, fewer than 10 accepted profiles have been written since the last forced flush. |
| `Acquisition.RunAppendOnly` | full_profiles_realtime_with_csv.py:125-129 | The log after any prefix of the ticks is a prefix of the log after all of them. This holds for rows and for flushes, and the counter never decreases. |
| `Decimal.Show` | process_csv_add_y.py:33 | The vertex count is written as digits with no leading zero, one digit exactly when the count is below 10. |
| `Decimal.ParseShow` | process_csv_add_y.py:33 | Reading the written count back gives the count. |
| `Decimal.ShowParse` | process_csv_add_y.py:33 | Every canonical digit string is the written form of the number it denotes, so the text is unique. |
| `Reconstruct.CountProfiles` | process_csv_add_y.py:12 | Returns the number of distinct `Profile_Number` values. The result is 0 exactly for the empty table and never exceeds the row count. |
| `Reconstruct.YStep` | process_csv_add_y.py:16-18 | For a positive count the step times the count gives back the total distance. A count of zero is the `DivisionByZero` error. |
| `Reconstruct.AddY` | process_csv_add_y.py:21 | Adding Y keeps the row count, the order and every original column. Each row's Y is `(Profile_Number - 1) * step`. |
| `Reconstruct.WritePly` | process_csv_add_y.py:30-40 | The output is the seven header lines for `|vertices|`, then one vertex line per vertex in order. An independent reader reads it back as exactly the input vertices. |
| `Reconstruct.ParsePlyRoundTrip` | process_csv_add_y.py:31-40 | A header declaring n vertices followed by n vertex lines reads back as those vertices. |
| `Reconstruct.ParsePlyOnlyWritten` | process_csv_add_y.py:31-40 | The reader accepts nothing except the exact header (`ply`, `format ascii 1.0`, `element vertex <n>`, `property float x/y/z`, `end_header`) followed by exactly n vertex lines. |
| `Reconstruct.Reconstruct` | process_csv_add_y.py:12-40 | The whole step fails with `DivisionByZero` exactly when the table is empty. Otherwise the file reads back as one vertex per row, in row order. Each vertex keeps the row's X and Z, and its Y times the distinct-profile count equals `(Profile_Number - 1) * total`. |
| `Reconstruct.SixtyFiveOverTenProfiles` | process_csv_add_y.py:16-21 | With 65 mm and 10 profiles the step is 6.5. Profile 1 lies at 0 and profile 10 at 58.5. |
| `Reconstruct.YIsUniform` | process_csv_add_y.py:21 | Profile 1 lies at the origin and consecutive profiles are exactly one step apart. Dividing Y by a nonzero step and adding 1 recovers the profile number. |
| `Reconstruct.YStrictlyIncreasing` | process_csv_add_y.py:18-21 | For a positive distance and a positive count, Y strictly increases with the profile number. |
| `Reconstruct.ProfileYOrder` | process_csv_add_y.py:21 | With a positive step, Y orders rows by profile number. Y is strictly smaller exactly when the profile number is. |
| `Reconstruct.ContiguousProfilesCount` | process_csv_add_y.py:12 | A table whose profile numbers are exactly {1..n} has n distinct profiles. |
| `Reconstruct.LastProfileY` | process_csv_add_y.py:18-21 | The last of n profiles lies at `total * (n-1) / n`, which is strictly below the total. |
| `Reconstruct.YWithinTravel` | process_csv_add_y.py:18-21 | Take a table whose profiles are {1..n} and a positive distance. Every row's Y lies in `[0, total*(n-1)/n]`, the last profile reaches that maximum, and the maximum is below the total. |
| `Reconstruct.RowY` | process_csv_add_y.py:18-21 | Take a table whose profiles are {1..n} and a positive distance. The step is defined and positive, and every row's Y is in `[0, total)`. |
| `Pipeline.LoggedProfileCount` | process_csv_add_y.py:12 | On a logged table, the distinct-profile set is {1..N} and the count is N, where N is the number of accepted ticks. The table is empty, and the reconstruction fails, exactly when no tick was accepted. |
| `Pipeline.LoggedY` | process_csv_add_y.py:21 | Take a log with at least one accepted profile, loaded as the reconstruction's table. Row j belongs to profile `j / resolution + 1`. The Y the reconstruction assigns to that row, `(Profile_Number - 1) * step` (the Y that `Reconstruct.Reconstruct` pins per vertex), lies in `[0, total)`. |
| `Pipeline.LoggedYsOrdered` | process_csv_add_y.py:21 | The Y the reconstruction assigns to the rows of a log, `(Profile_Number - 1) * step`, never decreases with the row index. It is strictly larger exactly when the later row lies in a later profile's block. |

## Left out

- Device discovery, connection, configuration, start and stop of the
  transfer, and teardown through the vendor library
  (full_profiles_realtime_with_csv.py:9-76, 143-145). These are foreign
  calls. A tick carries only the read length and the three conversion flag
  bits they produce.
- The calibration inside `convert_profile_2_values` (lines 113-115). This is
  vendor code. The converted x, z and intensity arrays are inputs of a
  tick. The vendor's bit constants are not visible, so the flags are three
  booleans.
- The `lost_profiles` out-value of the profile read. The code never uses
  it.
- Plot setup, `set_data`, titles and `FuncAnimation` timing (lines 86-104,
  118-123, 136-138). These are UI and scheduler behaviour. The model is
  the sequence of ticks the scheduler happens to deliver.
- File opening and closing, CSV quoting, pandas parsing, and the `%.6f`
  formatting of vertex lines. Rows and PLY lines are structured values.
  `Pipeline.Load` reads the log back column for column.
- The `try/except/finally` block, `KeyboardInterrupt` handling, progress
  prints and timestamped file names. These are process control and I/O.
  As a result, the final `close` that flushes the file at shutdown is not
  modelled.
- IEEE floating point. X, Z, the step and Y are exact reals. When the step
  is not an exact binary fraction (65/3, 65/7, ...), Python's float results
  differ from the model's in the last digits.
- Idempotence of the reconstruction is not stated as a lemma. It holds
  because every member of `Reconstruct` is a pure function or a
  deterministic method of its inputs.
- Pipeline.LoggedY: states Y per row through `Profile_Number = j /
  resolution + 1` rather than as the real number `(j / resolution) * step`.
  The per-row Y formula is stated by `Reconstruct.AddY`.
