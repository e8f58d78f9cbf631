# Quarterly-indicator dashboard, modelled in Dafny

This project models the logic behind a dashboard of Brazilian listed
companies and their quarterly financial indicators. The pieces are:

- the dashboard page (`src/pages/Dashboard.tsx`):
  - the quarterly comparator `getComparison`;
  - the field-to-unit classifier and the chart series;
  - the company search filter and the "latest result" label;
  - its own copy of the market-data import;
- the balance-data import dialog (`src/components/dashboard/BalanceDataDialog.tsx`),
  which maps a market-data payload to a record, guards against a duplicate
  quarter and inserts the record;
- the manual-entry dialog (`src/components/dashboard/FinancialDataDialog.tsx`):
  its initial form, its "YYYY-Tq" quarter selector, and its create, edit and
  delete submit;
- the indicator-definition page (`src/pages/Indicators.tsx`): the field-name
  slugifier, the SQL column text and the create/update dispatch;
- the comparison card, the indicator card and the chart's axis labels.

Modelling choices:

- JavaScript numbers are Dafny `real`s.
- A value that may be missing is an `Option<real>`.
- JavaScript truthiness of a number is `Common.Truthy`: present and non-zero.
- `a || d` is `Common.Or`, and `a || null` is `Common.OrNull`.
- Database tables are sequences of immutable records.
- Outside inputs are parameters. These are:
  - the HTTP status and the decoded payload;
  - the current year;
  - the error codes the database returns;
  - the id the database assigns to a new row.

Modules, one file each:

| file | module | what it holds |
|---|---|---|
| common.dfy | Common | options, truthiness, ASCII lowercasing, units, the record type |
| decimal.dfy | Decimal | `${i}` for integers and the prefix parse `parseInt` performs |
| comparator.dfy | Comparator | the stable newest-first sort and `getComparison` |
| change.dfy | Change | the percentage change both cards compute |
| format.dfy | Format | the unit-directed number rendering |
| comparison_card.dfy | ComparisonCard | the comparison card |
| indicator_card.dfy | IndicatorCard | the indicator card |
| indicator_chart.dfy | IndicatorChart | axis-label buckets |
| dashboard.dfy | Dashboard | units, chart series, search, latest label, metric panel |
| balance_mapper.dfy | BalanceMapper | payload validation, period derivation, metric mapping (both copies) |
| import_guard.dfy | ImportGuard | existence probe, duplicate guard, insert; the import end to end |
| financial_form.dfy | FinancialForm | the manual-entry dialog |
| indicator_defs.dfy | IndicatorDefs | the indicator-definition page |

Two places where the code and its own comments disagree; the model follows
the code:

- The record type's comment (`src/types/company.ts:14`) gives the quarter
  key format as `YYYY-Q1`.
  - The manual dialog writes `YYYY-Tq` (`FinancialForm.ManualKey`).
  - The import dialog writes `YYYYTRIq` (`BalanceMapper.TriKey`).
  - `YYYY-Q1` is written by two importers, as a placeholder
    (`BalanceMapper.FirstQuarterKey`). The dashboard's import always
    uses it. The import dialog uses it when the payload has no end date
    (`src/components/dashboard/BalanceDataDialog.tsx:96-99`).
- The dashboard's import says the period "will be updated based on actual
  quarter data". It never is: see Findings.

## Model

| member | source | states |
|---|---|---|
| Comparator.SortByPeriod | src/pages/Dashboard.tsx:305-308 | the sorted series is a permutation of the records, and no record is later in (year, quarter number) than one placed before it |
| Comparator.SortIsStable | src/pages/Dashboard.tsx:305-308 | the sort is stable: the records of any one period appear in the sorted series in their input order |
| Comparator.MatchIndex | src/pages/Dashboard.tsx:310-311 | the index found holds the value and no earlier index does; absent exactly when no record holds it |
| Comparator.GetComparison | src/pages/Dashboard.tsx:302-324 | no comparison when the current value is falsy or the series is empty; otherwise a comparison exists exactly when some record holds the current value |
| Comparator.TargetIsLatestMatch | src/pages/Dashboard.tsx:305-313 | the record compared is one of the input records, holds the current value, and no record holding it belongs to a later period |
| Comparator.PreviousQuarterIsNextOlder | src/pages/Dashboard.tsx:310-321 | "previous quarter" is read from the next record of the sorted series: it is not later than the target, no input record lies strictly between them, and it is absent when the target is the oldest |
| Comparator.SameQuarterLastYearIsYearBefore | src/pages/Dashboard.tsx:315-322 | a "same quarter last year" value comes from a record with the year before and the same quarter number; it is absent when no such record exists; when one exists, the value is the field of the first such record in the sorted series (missing if that record lacks the field) |
| Change.ChangePercent | src/components/dashboard/ComparisonCard.tsx:39-41 | a change exists exactly when the previous value is truthy, and then change × abs(previous) = (current − previous) × 100, so no division by zero happens |
| Change.ChangeRecoversCurrent | src/components/dashboard/ComparisonCard.tsx:41 | the current value can be recovered from the previous value and the change |
| Change.TrendIsSignOfDifference | src/components/dashboard/ComparisonCard.tsx:44 | the trend of the change is up, down or neutral exactly as current is above, below or equal to previous |
| ComparisonCard.FormatCardValue | src/components/dashboard/ComparisonCard.tsx:20-37 | null, undefined and NaN print "N/A" for every unit; a number prints in millions for currency and as given for percentage and ratio |
| ComparisonCard.GetCardComparison | src/components/dashboard/ComparisonCard.tsx:39-46 | absent exactly when previous is missing or zero; otherwise the trend is up, down or neutral exactly as current is above, below or equal to previous |
| ComparisonCard.TrendColor | src/components/dashboard/ComparisonCard.tsx:59-68 | each trend has its own colour class: success, destructive, primary |
| ComparisonCard.TrendIcon | src/components/dashboard/ComparisonCard.tsx:48-57 | the icon is chosen by the trend and painted with that trend's colour class |
| ComparisonCard.Render | src/components/dashboard/ComparisonCard.tsx:70-103 | the quarter row is shown exactly when the previous-quarter value is truthy, and the year row exactly when the last-year value is truthy; each row carries its own comparison |
| ComparisonCard.RowsAreIndependent | src/components/dashboard/ComparisonCard.tsx:70-71 | the quarter row does not depend on the last-year value, and the year row does not depend on the previous-quarter value |
| IndicatorCard.GetChangePercentage | src/components/dashboard/IndicatorCard.tsx:54-58 | absent exactly when the previous value is missing or zero; otherwise the change relation above holds |
| IndicatorCard.TrendStyle | src/components/dashboard/IndicatorCard.tsx:32-52 | icon and colour follow the `trend` prop alone: up is success, down is destructive, anything else (including no prop) is muted, with a matching icon |
| IndicatorCard.StyleIgnoresValues | src/components/dashboard/IndicatorCard.tsx:32-52 | two cards with the same `trend` prop have the same icon and colour, whatever their values |
| IndicatorCard.ChangeAreaAsWritten | src/components/dashboard/IndicatorCard.tsx:72-76 | as written: a stray "0" is shown exactly when the previous value is 0; the change line is shown exactly when the previous value is truthy |
| IndicatorCard.StrayZeroWhenPreviousIsZero | src/components/dashboard/IndicatorCard.tsx:72 | with a previous value of 0, the area shows the stray "0" whatever the current value |
| IndicatorCard.ChangeAreaOf | src/components/dashboard/IndicatorCard.tsx:72-76 | corrected: the change line is shown exactly when the previous value is truthy, otherwise nothing; a shown line always has its percentage |
| IndicatorCard.Render | src/components/dashboard/IndicatorCard.tsx:60-79 | as written: the card shows the value and the prop's style; under it, the change line exactly when the previous value is truthy, a stray "0" exactly when it is 0, and nothing exactly when it is missing |
| IndicatorCard.RenderCorrected | src/components/dashboard/IndicatorCard.tsx:60-79 | corrected: the same card, with nothing under the value unless the previous value is truthy |
| IndicatorCard.CorrectionOnlyAffectsZero | src/components/dashboard/IndicatorCard.tsx:72-76 | the card as written and the corrected card are equal exactly when the previous value is not 0 |
| Format.FormatValue | src/components/charts/IndicatorChart.tsx:16-32 | the rendering is chosen by the unit alone (currency, two decimals with %, two decimals) and renders the value unscaled |
| IndicatorChart.FormatAxisValue | src/components/charts/IndicatorChart.tsx:34-45 | currency values of at least 1e9, in [1e6, 1e9) and in [1e3, 1e6) get B, M and K, scaled back exactly; every other value, and every non-currency unit, gets the plain rendering |
| IndicatorChart.AxisSuffixMonotone | src/components/charts/IndicatorChart.tsx:35-42 | a larger currency value never gets a smaller suffix |
| Dashboard.IndicatorUnit | src/pages/Dashboard.tsx:326-333 | percentage exactly for the nine percentage fields, ratio exactly for the two ratio fields, currency exactly for all others |
| Dashboard.UnitMatchesRegistry | src/pages/Dashboard.tsx:326-333 | on every record field the name-list classifier agrees with an independent per-field unit table |
| Dashboard.ChartData | src/pages/Dashboard.tsx:292-300 | every point comes from a record carrying the field, with that record's quarter and value; there are no more points than records |
| Dashboard.ChartDataLength | src/pages/Dashboard.tsx:292-300 | one point per record that carries the field |
| Dashboard.ChartDataOfConcat | src/pages/Dashboard.tsx:299 | the series is reversed: points of a later block of records come before those of an earlier block |
| Dashboard.SearchCompanies | src/pages/Dashboard.tsx:417-423 | an empty query keeps every company; otherwise a company is kept exactly when its lowercased name or ticker contains the lowercased query, each kept company as often as it occurs, and the result is a subsequence of the input (the order of `filter`) |
| Dashboard.SearchIgnoresQueryCase | src/pages/Dashboard.tsx:420-422 | lowercasing the query first changes nothing |
| Dashboard.FormatInMillions | src/pages/Dashboard.tsx:365-372 | "R$ 0" exactly for zero; otherwise the millions figure times one million is the value |
| Dashboard.MissingLatestValuePrintsZero | src/pages/Dashboard.tsx:472-478 | with `value \|\| 0`, a missing latest value prints "R$ 0", exactly as a reported zero does |
| Dashboard.MetricPanel | src/pages/Dashboard.tsx:548-571 | a panel is shown exactly when one of the page's field lists names the field and the latest record has it; the chart draws that field's series, the card's current value is the latest value formatted in the classifier's unit |
| Dashboard.OnPageExceptEarningsPerShare | src/pages/Dashboard.tsx:548-708 | the page's six field lists name every field except earnings per share, which never gets a panel |
| Dashboard.PanelChartHasOnePointPerRecord | src/pages/Dashboard.tsx:292-300 | a panel's chart has one point per record carrying the field, each point from such a record |
| Dashboard.ZeroValueShowsNoComparison | src/pages/Dashboard.tsx:551-553 | a latest value of 0 still gets a panel (on a listed field), but its card has no comparison rows |
| Dashboard.LatestValueIsCompared | src/pages/Dashboard.tsx:550-568 | for a truthy latest value held by a series record, a comparison exists, the panel is shown exactly for a listed field, and each card row is shown exactly when the comparator's value for it is truthy |
| Decimal.ParseIntOfIntToString | src/components/dashboard/FinancialDataDialog.tsx:59-60 | `parseInt` of `${i}` followed by a non-digit gives back `i`, for every integer |
| Decimal.IntToStringInjective | src/components/dashboard/FinancialDataDialog.tsx:187 | different integers render to different text |
| BalanceMapper.VariantPathsDisjoint | src/components/dashboard/BalanceDataDialog.tsx:86-88 | the plain-list path the dialog reads and the wrapped path the dashboard reads never both yield a statement |
| BalanceMapper.Validate | src/components/dashboard/BalanceDataDialog.tsx:79-93 | "no results" exactly when `results` is missing or empty; "no quarter data" exactly when the first result has none of the three statements; otherwise the sections of `results[0]` |
| BalanceMapper.QuarterOfMonth | src/components/dashboard/BalanceDataDialog.tsx:104-105 | the quarter number is in 1..4 and is the quarter that contains the month |
| BalanceMapper.EndDate | src/components/dashboard/BalanceDataDialog.tsx:96 | the balance sheet's end date, else the income statement's, else the cash flow's |
| BalanceMapper.PeriodOf | src/components/dashboard/BalanceDataDialog.tsx:96-107 | with an end date: its year, the quarter containing its month, and the key "YYYYTRIq"; without one: the current year, quarter 1 and "YYYY-Q1" |
| BalanceMapper.TriKeyNamesPeriod | src/components/dashboard/BalanceDataDialog.tsx:106 | the key "YYYYTRIq" begins with the year's text, and parsing reads back both the year and the quarter number |
| BalanceMapper.Quotient | src/components/dashboard/BalanceDataDialog.tsx:137-142 | a ratio is present exactly when both operands are truthy, and then it times the divisor gives back the scaled dividend |
| BalanceMapper.Percent | src/components/dashboard/BalanceDataDialog.tsx:145-148 | present exactly when the source is truthy, and then it is the source times 100 (never 0) |
| BalanceMapper.WorkingCapital | src/components/dashboard/BalanceDataDialog.tsx:129 | present exactly when the two operands (missing read as 0) differ; then it is their difference, even when only one operand was reported |
| BalanceMapper.FirstTruthy | src/components/dashboard/BalanceDataDialog.tsx:164 | the first truthy of the two sources, else null |
| BalanceMapper.MetricsFrom | src/components/dashboard/BalanceDataDialog.tsx:117-164 | every field is stated: the eleven pass-through fields map falsy values to null; working capital is `(ca \|\| 0) - (cl \|\| 0) \|\| null`; each ratio and margin is present exactly when both operands are truthy, and then times its divisor gives the scaled dividend; each of the five percentages is present exactly when its fraction is truthy, and then is the fraction times 100; earnings per share takes the first truthy source |
| BalanceMapper.MapDialog | src/components/dashboard/BalanceDataDialog.tsx:79-166 | fails exactly when validation fails, with the same error; on success the row has the selected company, the derived period, the mapped metrics and the price |
| BalanceMapper.ZeroRevenueIsDropped | src/components/dashboard/BalanceDataDialog.tsx:155-161 | a reported revenue of 0 is stored as missing (line 117), and so are the three revenue-based margins |
| BalanceMapper.WorkingCapitalExample | src/components/dashboard/BalanceDataDialog.tsx:129-140 | current assets 500 and liabilities 200 give working capital 300 and current ratio 2.5 |
| BalanceMapper.DashboardMetrics | src/pages/Dashboard.tsx:202-243 | the dashboard copy never sets general liquidity, ROIC or earnings per share |
| BalanceMapper.CopiesAgreeOnSharedMetrics | src/pages/Dashboard.tsx:202-243 | on the same statements, the dashboard copy's metrics equal the dialog copy's except for those three fields |
| BalanceMapper.MapDashboard | src/pages/Dashboard.tsx:178-244 | as written: fails exactly when validation fails; on success the period is the current year, quarter 1, "YYYY-Q1" |
| BalanceMapper.DashboardPeriodIgnoresEndDate | src/pages/Dashboard.tsx:197-199 | as written: two payloads with any end dates are filed under the same period |
| BalanceMapper.MapDashboardCorrected | src/pages/Dashboard.tsx:185-199 | corrected: a validation error is passed through unchanged; on success the row belongs to the given company, carries the metrics of the statements and no share price, and its period comes from the end date as the dialog derives it ("YYYYTRIq" with quarter number 1 to 4, or the current year's "YYYY-Q1" when there is no end date) |
| ImportGuard.Count | src/components/dashboard/BalanceDataDialog.tsx:169-173 | no row is selected exactly when no stored record has the key |
| ImportGuard.Probe | src/components/dashboard/BalanceDataDialog.tsx:169-174 | a request error comes back as is; otherwise an id is returned exactly when one row matches, and zero or several rows give PGRST116 |
| ImportGuard.Guard | src/components/dashboard/BalanceDataDialog.tsx:176-194 | a probe error other than PGRST116 aborts; a matching row refuses the import; the row is inserted exactly when the insert succeeds and the probe found no single row; an insert appends exactly the stored row |
| ImportGuard.FindCompany | src/components/dashboard/BalanceDataDialog.tsx:51 | the company found is in the list with the id; none is found exactly when no company has the id |
| ImportGuard.RunImport | src/components/dashboard/BalanceDataDialog.tsx:73-194 | a non-2xx status stops first, then a mapping error, then the guard decides |
| ImportGuard.ImportDialog | src/components/dashboard/BalanceDataDialog.tsx:50-194 | fails for "no company" exactly when the id is not among the companies; otherwise it runs the import with the guard keyed on company and quarter text, so a stored row with the same company and quarter text refuses the import; an import appends the mapped row |
| ImportGuard.ImportDashboard | src/pages/Dashboard.tsx:152-290 | fails for "no company" exactly when none is shown; otherwise the guard is keyed on the shown company and the placeholder quarter text "YYYY-Q1", so a stored row with that key refuses the import; an import appends the mapped row |
| ImportGuard.ImportDialogCorrected | src/components/dashboard/BalanceDataDialog.tsx:168-194 | corrected: the guard is keyed on company, year and quarter number, so a stored row of the same company and period refuses the import whatever its quarter text |
| ImportGuard.ExistingRowBlocksInsert | src/components/dashboard/BalanceDataDialog.tsx:180-187 | a stored record with the same key stops the import with nothing written |
| ImportGuard.ProbeErrorHandling | src/components/dashboard/BalanceDataDialog.tsx:176-178 | PGRST116 reads as "not found" and leads to the insert; any other code aborts |
| ImportGuard.UniqueCountAtMostOne | src/components/dashboard/BalanceDataDialog.tsx:169-174 | in a table with unique keys at most one row matches a key |
| ImportGuard.GuardPreservesUniqueKeys | src/components/dashboard/BalanceDataDialog.tsx:168-194 | the guard keeps its own key unique: an import into a table with one row per key leaves such a table |
| ImportGuard.ReimportIsRefused | src/components/dashboard/BalanceDataDialog.tsx:168-187 | importing the same quarter twice in a row is refused the second time |
| ImportGuard.FebruaryIsFirstQuarter | src/components/dashboard/BalanceDataDialog.tsx:101-107 | a balance sheet ending in February 2024 is filed as 2024, quarter 1, "2024TRI1" |
| ImportGuard.ImportedKeyIsNotManualKey | src/components/dashboard/BalanceDataDialog.tsx:106 | the imported key and the manual key of the same period always differ |
| ImportGuard.QuarterTextGuardAdmitsSamePeriod | src/components/dashboard/BalanceDataDialog.tsx:168-174 | as written: a manual record of 2024 quarter 1 does not stop the import of that quarter, so two records of one period are stored |
| ImportGuard.CorrectedGuardKeepsPeriodsUnique | src/components/dashboard/BalanceDataDialog.tsx:168-174 | corrected: with the guard on (company, year, quarter number), imports keep at most one record per period |
| FinancialForm.InitialForm | src/components/dashboard/FinancialDataDialog.tsx:24-52 | every shown metric starts as the stored value if truthy and as 0 otherwise; a stored year, quarter number or key is kept when truthy, and otherwise replaced by the current year, 1 and `<current year>-T1` respectively; earnings per share is not on the form |
| FinancialForm.SplitPieces | src/components/dashboard/FinancialDataDialog.tsx:55 | the first piece is the text before the first "-T"; the second is absent exactly when there is no "-T" |
| FinancialForm.HandleQuarterChange | src/components/dashboard/FinancialDataDialog.tsx:54-62 | the key is kept as selected and the metrics are untouched; without a separator the quarter number is NaN |
| FinancialForm.QuarterKeyRoundTrip | src/components/dashboard/FinancialDataDialog.tsx:54-62 | selecting "Y-Tq" sets year Y and quarter number q, for every pair of integers |
| FinancialForm.OfferedKeysRoundTrip | src/components/dashboard/FinancialDataDialog.tsx:185-191 | every key the selector offers sets a year in 2023..2025 and a quarter in 1..4 that render back to the same key |
| FinancialForm.Patch | src/components/dashboard/FinancialDataDialog.tsx:82-85 | a field the form holds overwrites the stored value; a field it lacks keeps the stored one |
| FinancialForm.RemoveId | src/components/dashboard/FinancialDataDialog.tsx:70-73 | exactly the records without the id remain |
| FinancialForm.UpdateId | src/components/dashboard/FinancialDataDialog.tsx:82-85 | records with the id are updated in place; all others are unchanged |
| FinancialForm.Submit | src/components/dashboard/FinancialDataDialog.tsx:64-124 | the dialog closes exactly when success is reported. It stays open exactly on a database error, or when a create or edit has a NaN period. Without a record, delete and edit write nothing but still close. Delete removes exactly the record's id. Edit rewrites exactly it. Create appends one record under the dialog's company, with the new id and the form's key, year, quarter number and metrics |
| FinancialForm.UnchangedEditFillsZeros | src/components/dashboard/FinancialDataDialog.tsx:29-51 | saving an untouched edit form (the update at lines 82-85) writes 0 for each missing shown metric and keeps earnings per share |
| FinancialForm.DeleteIsIdempotent | src/components/dashboard/FinancialDataDialog.tsx:69-73 | a second delete of the same record changes nothing further |
| IndicatorDefs.GenerateFieldName | src/pages/Indicators.tsx:146-154 | the result has only a-z, 0-9 and "_", no run of underscores, and no underscore at either end |
| IndicatorDefs.FieldNameKeepsLettersAndDigits | src/pages/Indicators.tsx:146-154 | the field name keeps exactly the letters and digits of the lowercased name, in order |
| IndicatorDefs.GenerateFieldNameIdempotent | src/pages/Indicators.tsx:146-154 | generating a field name from a field name gives it back |
| IndicatorDefs.SqlType | src/pages/Indicators.tsx:157 | DECIMAL(15,2) exactly for currency, DECIMAL(10,4) for the other units |
| IndicatorDefs.SqlColumnRoundTrip | src/pages/Indicators.tsx:156-159 | splitting the column text at its first space gives back the field name and the unit's type, for any space-free field name |
| IndicatorDefs.GeneratedColumnRoundTrip | src/pages/Indicators.tsx:156-165 | the column text of every generated field name reads back |
| IndicatorDefs.CloseDialog | src/pages/Indicators.tsx:259-263 | the dialog is closed, nothing is being edited, and the form is empty with "revenue" and "currency" |
| IndicatorDefs.HandleEdit | src/pages/Indicators.tsx:221-232 | the dialog opens on the definition; a missing sector shows as empty |
| IndicatorDefs.ChosenFieldName | src/pages/Indicators.tsx:164 | a typed field name is kept; an empty one is generated from the name and is well-formed |
| IndicatorDefs.Written | src/pages/Indicators.tsx:164-199 | the written row carries the chosen field name and its column text; an empty sector is stored as null |
| IndicatorDefs.Submit | src/pages/Indicators.tsx:161-219 | on a database error page and table stay as they were. Otherwise the dialog closes, and the edited definition is updated in place or a new one is appended |
| IndicatorDefs.SubmitAfterCloseInserts | src/pages/Indicators.tsx:259-263 | after the dialog is closed, the next submit inserts rather than updates (the branch at line 168) |
| IndicatorDefs.UnchangedEditKeepsDefinition | src/pages/Indicators.tsx:221-232 | saving an untouched edit of a well-formed definition (the update at lines 168-180) leaves it unchanged |

## Left out

- Network, React state, toasts and `console` output are not modelled. The
  import's HTTP status, decoded payload, probe error and insert error are
  parameters, and so are the manual dialog's database error and the ids
  the database assigns.
- The current date is a parameter, `currentYear`.
- Date parsing and time zones are not modelled. An end date is given
  directly as (year, month 1..12).
- A body that fails to decode as JSON is not modelled.
- Locale formatting (`toLocaleString('pt-BR')`, `Intl.NumberFormat`,
  `toFixed`) is not modelled: it produces text, and the text is not
  checked. Each rendering is a datatype case holding the number it prints.
  Rounding to one or two decimals is therefore not represented.
- NaN and ±Infinity are not modelled for computed numbers, because Dafny
  `real` has neither. NaN is modelled where the code tests it: the
  comparison card's `formatValue`, and `parseInt` on text without digits.
- `null` and `undefined` in stored records are both `None`.
  - `getChartData` keeps a record whose field is `null`, because its filter
    only drops `undefined`. The model drops both.
- `parseInt` is modelled on the texts the code feeds it: an optional sign,
  then digits. Leading whitespace, hexadecimal prefixes and digits beyond
  safe-integer precision are left out.
- NFD normalisation and non-ASCII lowercasing are left out.
  `generateFieldName` is modelled on ASCII lowercasing. Accents are taken
  to arrive already decomposed as combining marks U+0300..U+036F.
- The check-then-insert race between two concurrent imports is left out.
  The model runs one import at a time.
- The inserted row's columns that the record type lacks are not stored.
  These are current and total assets and liabilities, and the share price.
- Data loading is not modelled: `loadCompanies`, `loadFinancialData` and
  `loadIndicators`.
- `handleDelete` of the definitions page is not modelled. It is the same
  delete by id as `FinancialForm.RemoveId`.
- `copySqlToClipboard` is not modelled.
- The per-field number inputs of the manual dialog are not modelled
  (`Number(e.target.value)` on each change).
- The companies page, the navigation bar and the generated database types
  are outside this model.
- BalanceMapper.Quotient: the value of a ratio is stated as a product
  (the ratio times its divisor is the scaled dividend), not as a division.
  This is the same number, since the divisor is truthy and so non-zero.
- Change.ChangePercent: the change is given as the number before
  `toFixed(1)` rounding, and rounding is not modelled.

## Findings

| source | as written | input that shows it | evidently intended | confidence | as-written member | corrected member |
|---|---|---|---|---|---|---|
| src/components/dashboard/IndicatorCard.tsx:72 | `{previousValue && (<p>…</p>)}` evaluates to the number `0` when the previous value is 0, and React renders it as a stray "0" | `previousValue = 0`, any `value` | show nothing when there is no usable previous value | not executed | IndicatorCard.Render, IndicatorCard.ChangeAreaAsWritten, IndicatorCard.StrayZeroWhenPreviousIsZero | IndicatorCard.RenderCorrected, IndicatorCard.ChangeAreaOf, IndicatorCard.CorrectionOnlyAffectsZero |
| src/pages/Dashboard.tsx:197-199 | the dashboard's import files every payload under the current year, quarter 1, key "YYYY-Q1"; the comments say this "will be updated" but it never is | a balance sheet ending in September 2023, imported in 2025 | the period derived from the statements' end date, as the dialog does | not executed | BalanceMapper.MapDashboard, BalanceMapper.DashboardPeriodIgnoresEndDate | BalanceMapper.MapDashboardCorrected |
| src/components/dashboard/BalanceDataDialog.tsx:168-174 | the duplicate guard filters on the quarter text, but imports write "YYYYTRIq" and manual entries write "YYYY-Tq" | a manual record "2024-T1" exists, and a balance sheet ending in February 2024 is imported, keyed "2024TRI1" | one record per company and period | not executed | ImportGuard.ImportDialog, ImportGuard.QuarterTextGuardAdmitsSamePeriod | ImportGuard.ImportDialogCorrected, ImportGuard.CorrectedGuardKeepsPeriodsUnique |
