# Wage-scale IPC robots, modelled in Dafny

This project models the two scheduled robots that keep Argentine wage
scales in step with the monthly consumer price index (IPC) published by
INDEC.

- **Sanidad robot** (`update_paritarias_sanidad.js`): handles the health-sector
  scales (FATSA CCT 122/75, 108/75). It reads the IPC; when the read fails it
  falls back to 0 % and the text "Sin ajuste IPC - Valores base". It then
  walks the fixed list of 24 jurisdictions in order. For each one it does one
  of three things:
  - scales the seven monetary columns of the stored record by `1 + ipc/100`,
    rounding with `Math.round`;
  - keeps the stored record and only refreshes its time stamp;
  - creates the record from the default profile, using the Patagonian or the
    normal base table.
- **Federal robot** (`update_paritarias.js`): reads the IPC and aborts on a
  failed read or a zero IPC. Otherwise, when the table can be read, it
  writes every row of `maestro_paritarias` back; a failed table read writes
  nothing. A row tagged `tipo_ajuste === 'ipc'` gets
  `valor_indice * (1 + ipc/100)`, unrounded, and the fetched legal source.
  Every other row keeps both values.

Modules:

- `Common`: `Option` and the opaque `Timestamp`.
- `Money`: `Math.round` as round-half-up on exact rationals, and the IPC factor.
  The IPC is a whole number of hundredths of a percent, which is what
  `parseFloat(x.toFixed(2))` yields.
- `DecimalText`: how a JavaScript template literal prints that number
  (`2.5`, `2`, `-0.3`), with a parser that reads it back.
- `IpcSource`: the series response and the at-least-two-points rule. It also
  holds the legal-source texts of both robots and the sanidad fallback.
- `Sanidad`: the jurisdiction list, the base tables,
  `generarRegistroJurisdiccion`, the `find` lookup and the reconciliation loop.
- `Federal`: the per-row update, the effect of the updates on the table, and
  the abort guards.

## Behaviour worth knowing

`generarRegistroJurisdiccion` tags every record it creates with
`tipo_ajuste: 'ipc'` (update_paritarias_sanidad.js:107). Yet the sanidad loop
never reads that tag (update_paritarias_sanidad.js:205): it scales every stored
record when the IPC is positive. `Sanidad.ScaledCase` therefore has no condition
on the tag, and `Sanidad.StaticRecordIsScaledToo` shows a record tagged
otherwise going from 850000 to 871250. Only the federal robot skips rows that
are not tagged 'ipc' (update_paritarias.js:66, `Federal.OtherRowsKeepValues`).

The sanidad guard is `ipcMensual > 0`, so any IPC of zero or less, a negative
one included, keeps stored records as they are (`Sanidad.KeptCase`). A second
run at such an IPC changes only the time stamps
(`Sanidad.SecondRunOnlyRefreshes`).

## Model

| member | source | states |
|---|---|---|
| `Money.Round` | update_paritarias_sanidad.js:211-217 | `Math.round` yields the integer within one half of its argument, a tie going up |
| `Money.ScaleByIntegers` | update_paritarias_sanidad.js:207-217 | a scaled amount equals the integer-only half-up division `(2v(10000+ipc)+10000) div 20000` |
| `Money.ScaleNeverLowers` | update_paritarias_sanidad.js:205-211 | with a positive IPC a non-negative amount never decreases |
| `Money.ScaleExample` | update_paritarias_sanidad.js:207-211 | 850000 at 2.50 % becomes 871250 |
| `Money.UnroundedScale` | update_paritarias.js:67 | in the model's exact rational arithmetic, the unrounded product times 10000 is v·(10000+ipc), and it moves a positive value up or down with the IPC's sign |
| `DecimalText.HundredthsRoundTrip` | update_paritarias_sanidad.js:138-139 | the printed IPC reads back as the same number of hundredths, so distinct IPCs print differently |
| `DecimalText.NoTrailingZero` | update_paritarias_sanidad.js:138-139 | the printed IPC is the shortest form: no trailing zero after the point |
| `DecimalText.RenderingExamples` | update_paritarias_sanidad.js:139 | 2.50 % prints as `2.5`, 2 % as `2`, 2.05 % as `2.05`, -0.30 % as `-0.3`, 0 as `0` |
| `IpcSource.ReadIpc` | update_paritarias_sanidad.js:132-143 | a reading exists iff the request answered with at least two points; it compares point 0 with point 1 and takes point 0's period |
| `IpcSource.ReadIpcUsesTwoPoints` | update_paritarias_sanidad.js:127-135 | points beyond the two most recent never affect the reading |
| `IpcSource.DescriptionRecordsIpc` | update_paritarias.js:35 | the legal-source text records the applied IPC exactly; it can be read back from the text |
| `IpcSource.SanidadAdjustment` | update_paritarias_sanidad.js:132-150 | a failed or short fetch yields IPC 0 and "Sin ajuste IPC - Valores base"; a reading yields its IPC and a text that records it; the text is never empty |
| `IpcSource.FallbackIsNotADescription` | update_paritarias_sanidad.js:139-149 | the fallback text differs from every fetched description, including a 0 % one |
| `Sanidad.JurisdiccionesDistinct` | update_paritarias_sanidad.js:35-60 | the list has 24 entries with pairwise distinct keys |
| `Sanidad.PatagonicasExactly` | update_paritarias_sanidad.js:35-60 | a jurisdiction is Patagonian iff it is one of chubut, laPampa, neuquen, rioNegro, santaCruz, tierraDelFuego |
| `Sanidad.PatagonicaIsSixFifths` | update_paritarias_sanidad.js:63-77 | each of the five Patagonian basics is exactly 6/5 of the normal one |
| `Sanidad.Generar` | update_paritarias_sanidad.js:80-110 | a generated record carries the jurisdiction's key, name and the given basics; the regional bonus is 20 iff Patagonian and 0 iff not; the metadata is tag 'ipc' plus the Patagonian flag |
| `Sanidad.GeneratedConstantsShared` | update_paritarias_sanidad.js:89-104 | all generated records share the percentage, deduction, cash-shortfall, ceiling and legal-source constants, except the regional bonus |
| `Sanidad.FirstMatch` | update_paritarias_sanidad.js:202 | lookup finds nothing iff no stored record has the key; otherwise it finds the first record with the key |
| `Sanidad.ReconciliarJurisdiccion` | update_paritarias_sanidad.js:200-237 | each iteration yields a record with the jurisdiction's key and the run's time stamp |
| `Sanidad.Reconcile` | update_paritarias_sanidad.js:198-238 | the loop yields one record per listed jurisdiction, in list order, each keyed by its jurisdiction |
| `Sanidad.RunSanidad` | update_paritarias_sanidad.js:35-60 | a run outputs exactly 24 records in list order; keys are pairwise distinct and none is outside the list |
| `Sanidad.AjustarAdjusts` | update_paritarias_sanidad.js:209-220 | the adjusted copy rounds each of the seven amounts after scaling; it replaces legal source and time stamp and copies every other column |
| `Sanidad.ScaledCase` | update_paritarias_sanidad.js:202-222 | stored record found and IPC > 0: the output is that record adjusted, whatever its tag; no non-negative amount drops |
| `Sanidad.KeptCase` | update_paritarias_sanidad.js:224-229 | stored record found and IPC <= 0 (negative included): the output is that record with only the time stamp changed |
| `Sanidad.CreatedCase` | update_paritarias_sanidad.js:203-235 | no stored record: Patagonian basics iff Patagonian, normal basics iff not; the fetched text if non-empty, otherwise the default text; every other column is the default profile |
| `Sanidad.FailedFetchScalesNothing` | update_paritarias_sanidad.js:145-150 | after a failed fetch every stored record is kept; every new record has its default basics and the "no adjustment" text |
| `Sanidad.NonPositiveReadingLikeFailure` | update_paritarias_sanidad.js:205-234 | a reading of 0 or less treats stored records exactly like a failed fetch; new records differ only in their legal source |
| `Sanidad.NewRecordsCarryRunSource` | update_paritarias_sanidad.js:234 | a created record always carries the run's text; the default 'FATSA CCT 122/75 - Paritarias 2026' never survives a run |
| `Sanidad.SecondRunOnlyRefreshes` | update_paritarias_sanidad.js:200-229 | reconciling a run's output again with IPC <= 0 finds every record and changes only the time stamps |
| `Sanidad.StaticRecordIsScaledToo` | update_paritarias_sanidad.js:205-211 | a stored record tagged other than 'ipc' is still scaled: 850000 becomes 871250 at 2.50 % |
| `Federal.CambioPara` | update_paritarias.js:62-78 | the update for a row is keyed by the row's own jurisdiction and stamped with the run's time |
| `Federal.Cambios` | update_paritarias.js:62-79 | one update per row read, in order, each keyed by its row's jurisdiction |
| `Federal.AbortsBeforeReading` | update_paritarias.js:38-49 | a failed fetch or a zero IPC ends the run the same way whatever the table holds; nothing is written |
| `Federal.ShortResponseAborts` | update_paritarias.js:28-44 | a failed request or one with fewer than two points ends the run as a failed fetch |
| `Federal.EachRowWrittenOnce` | update_paritarias.js:62-78 | with a non-zero IPC every row read gets exactly one update, keyed by its jurisdiction, stamped now |
| `Federal.IndexLinkedUpdate` | update_paritarias.js:66-69 | in the model's exact arithmetic, an 'ipc' row's new index v' satisfies v'·10000 = v·(10000+ipc), unrounded; it takes the given legal source |
| `Federal.IndexLinkedRowFollowsIpc` | update_paritarias.js:46-69 | in a run, an 'ipc' row is scaled unrounded and its legal source records the IPC; a negative IPC lowers a positive index |
| `Federal.OtherRowsKeepValues` | update_paritarias.js:63-66 | a row with another or no tag keeps index and legal source, whatever the IPC |
| `Federal.AplicarTodosRows` | update_paritarias.js:71-78 | after the updates each row holds the three columns of the last update for its jurisdiction, or is untouched; no other column changes |
| `Federal.WrittenTable` | update_paritarias.js:62-78 | with distinct jurisdictions each row ends up with its own update; tag and other columns are unchanged |
| `Federal.ZeroIpcContrast` | update_paritarias.js:46-49 | on a zero IPC the federal robot aborts while the sanidad robot still outputs 24 records |

## Left out

- The Supabase client is not modelled: reads, upserts, updates and the choice between `maestro_paritarias_sanidad` and `syncra_entities`. Stored records are an input sequence, and a failed read is an empty sequence (sanidad) or `None` (federal).
- A failed save (`process.exit(1)`) is not modelled. In the federal loop, an `update` call whose error object is ignored is not modelled either: every write is taken to succeed.
- The axios request, its 15 s timeout and the JSON payload path are not modelled. The response is an input: failed, or a list of points.
- The float derivation `parseFloat(((actual/anterior - 1) * 100).toFixed(2))` is a parameter of `IpcSource.ReadIpc`. A NaN or infinite IPC (for example when the previous value is 0) cannot be expressed in hundredths, so it is not modelled.
- Money.Scale: uses exact rationals, not IEEE-754 doubles. A product that lands within double-precision error of a half may round the other way in the source.
- Sanidad.Escala: stored amounts are integers, and a record has exactly the columns the robot writes. Amounts of other JavaScript types are not modelled. In the source, a `null` amount multiplies to 0, so `Math.round` stores 0. A numeric string is first converted to its number. A missing amount or a non-numeric string gives NaN. The extra columns that the `...existente` spread copies are not modelled either.
- Federal.CambioPara: `valorIndice` is always a number. In the source, an 'ipc' row whose `valor_indice` is `null` has 0 written, because `null * factor` is 0. A row whose `valor_indice` is missing gets NaN, which is sent as `null`. A row with another tag writes back whatever it read. The model also writes the exact product v·(10000+ipc)/10000, while the source writes the IEEE-754 double product `valor_indice * (1 + ipcMensual/100)`. Since 1.025 is not a double, a `valor_indice` of 100 at 2.50 % is written as `102.49999999999999`, not 102.5. This error is in every written value, and it compounds from month to month.
- `new Date()` is called once per record in the source. The model uses one opaque `now` for the whole run.
- DecimalText.HundredthsText: matches JavaScript only while the double nearest `h / 100` prints with at most two decimals. From 2^46 ≈ 7.04e13 % the spacing between doubles (1/64) exceeds 0.01, and JavaScript prints a different shortest form; for example h = 7036874417766401 prints as `70368744177664.02`, not `…64.01`. From 1e21 upward it also switches to exponent notation. No real IPC comes near either bound.
- Environment loading, the missing-credentials exit, console logging and `next.config.ts` are not modelled. They are configuration and output with no reconciliation logic.
