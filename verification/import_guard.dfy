/**
 The duplicate-quarter guard and insert that close both copies of the
 balance-data import (src/components/dashboard/BalanceDataDialog.tsx and
 `fetchBalanceData` in src/pages/Dashboard.tsx). The database table is a
 sequence of stored records; the `.single()` existence probe, the HTTP
 status of the market-data request and the outcome of the insert are
 parameters.
 */
module ImportGuard {
  import opened Common
  import opened BalanceMapper
  import opened Decimal
  import opened FinancialForm

  // ---------------------------------------------------------------- keys

  /** Which columns the existence probe filters on. */
  datatype GuardKind =
    | ByQuarterText   // `.eq('company_id', …).eq('quarter', …)`, as written
    | ByPeriod        // company, year and quarter number

  datatype Key =
    | QuarterKey(companyId: string, quarter: string)
    | PeriodKey(companyId: string, year: int, quarterNumber: int)

  function KeyOf(d: Indicator, kind: GuardKind): (k: Key)
    ensures k.companyId == d.companyId
    ensures kind == ByQuarterText <==> k.QuarterKey?
  {
    match kind
    case ByQuarterText => QuarterKey(d.companyId, d.quarter)
    case ByPeriod => PeriodKey(d.companyId, d.year, d.quarterNumber)
  }

  /** Number of stored records the probe's filter selects. */
  function Count(db: seq<Indicator>, kind: GuardKind, k: Key): (n: nat)
    ensures n <= |db|
    ensures n == 0 <==> forall d :: d in db ==> KeyOf(d, kind) != k
  {
    if |db| == 0 then 0
    else
      assert forall d :: d in db <==> d == db[0] || d in db[1..];
      (if KeyOf(db[0], kind) == k then 1 else 0) + Count(db[1..], kind, k)
  }

  /** The first stored record the filter selects. */
  function FirstMatch(db: seq<Indicator>, kind: GuardKind, k: Key): (r: Option<Indicator>)
    ensures r.Some? <==> Count(db, kind, k) > 0
    ensures r.Some? ==> r.value in db && KeyOf(r.value, kind) == k
  {
    if |db| == 0 then None
    else if KeyOf(db[0], kind) == k then Some(db[0])
    else FirstMatch(db[1..], kind, k)
  }

  lemma {:induction false} CountOfAppend(db: seq<Indicator>, x: Indicator, kind: GuardKind, k: Key)
    ensures Count(db + [x], kind, k) == Count(db, kind, k) + (if KeyOf(x, kind) == k then 1 else 0)
  {
    if |db| == 0 {
      assert db + [x] == [x];
    } else {
      assert (db + [x])[1..] == db[1..] + [x];
      CountOfAppend(db[1..], x, kind, k);
    }
  }

  // ---------------------------------------------------------------- probe

  /** The error code PostgREST reports when `.single()` does not see exactly one row. */
  const NotSingleRow := "PGRST116"

  /** The `{ data, error }` pair the probe resolves to; `data` is the id. */
  datatype ProbeResponse = ProbeResponse(data: Option<string>, errorCode: Option<string>)

  /** `.select('id')…single()`: a request-level failure comes back as that
      error; otherwise exactly one selected row yields its id, and zero or
      several rows yield the not-single-row error. */
  function Probe(db: seq<Indicator>, kind: GuardKind, k: Key, requestError: Option<string>): (p: ProbeResponse)
    ensures requestError.Some? ==> p == ProbeResponse(None, requestError)
    ensures requestError.None? ==> (p.data.Some? <==> Count(db, kind, k) == 1)
    ensures requestError.None? && Count(db, kind, k) != 1 ==> p.errorCode == Some(NotSingleRow)
    ensures p.data.Some? ==> exists d :: d in db && KeyOf(d, kind) == k && d.id == p.data.value
  {
    if requestError.Some? then ProbeResponse(None, requestError)
    else if Count(db, kind, k) == 1 then ProbeResponse(Some(FirstMatch(db, kind, k).value.id), None)
    else ProbeResponse(None, Some(NotSingleRow))
  }

  // ---------------------------------------------------------------- import

  /** Why an import stops without writing. */
  datatype ImportFailure =
    | NoCompanySelected
    | HttpError(status: int)
    | MappingFailed(error: MapError)
    | ProbeFailed(code: string)
    | InsertFailed(message: string)

  datatype Outcome =
    | Imported(db: seq<Indicator>)  // the table after the insert
    | AlreadyExists                 // "Dados já existem": nothing written
    | Failed(failure: ImportFailure)

  /** Everything outside the program that one import run observes. */
  datatype Environment = Environment(
    httpStatus: int,
    payload: Payload,
    currentYear: int,
    probeError: Option<string>,
    newId: string,             // id the database assigns to the new row
    insertError: Option<string>)

  /** `response.ok`. */
  predicate HttpOk(status: int) {
    200 <= status <= 299
  }

  /** The record the insert stores. The ratio extras have no column in
      the record shape and are not kept. */
  function Stored(row: ImportRow, id: string): (d: Indicator)
    ensures d.companyId == row.companyId && d.metrics == row.metrics
    ensures d.year == row.period.year && d.quarterNumber == row.period.quarterNumber
    ensures d.quarter == row.period.quarter
  {
    Indicator(id, row.companyId, row.period.quarter, row.period.year, row.period.quarterNumber, row.metrics)
  }

  /** The guard and insert: any probe error other than the not-single-row
      code aborts; a returned id means the quarter exists and nothing is
      written; otherwise the row is inserted unless the insert fails. */
  function Guard(db: seq<Indicator>, kind: GuardKind, row: ImportRow, env: Environment): (o: Outcome)
    ensures env.probeError.Some? && env.probeError.value != NotSingleRow ==>
              o == Failed(ProbeFailed(env.probeError.value))
    ensures env.probeError.None? && Count(db, kind, KeyOf(Stored(row, env.newId), kind)) == 1 ==>
              o == AlreadyExists
    ensures o.Imported? <==>
              && env.insertError.None?
              && (env.probeError == Some(NotSingleRow)
                  || (env.probeError.None? && Count(db, kind, KeyOf(Stored(row, env.newId), kind)) != 1))
    ensures o.Imported? ==> o.db == db + [Stored(row, env.newId)]
  {
    var probe := Probe(db, kind, KeyOf(Stored(row, env.newId), kind), env.probeError);
    if probe.errorCode.Some? && probe.errorCode.value != NotSingleRow then Failed(ProbeFailed(probe.errorCode.value))
    else if probe.data.Some? then AlreadyExists
    else if env.insertError.Some? then Failed(InsertFailed(env.insertError.value))
    else Imported(db + [Stored(row, env.newId)])
  }

  /** `companies.find(c => c.id === selectedCompanyId)`. */
  function FindCompany(companies: seq<Company>, id: string): (r: Option<Company>)
    ensures r.Some? ==> r.value in companies && r.value.id == id
    ensures r.None? <==> forall c :: c in companies ==> c.id != id
  {
    if |companies| == 0 then None
    else if companies[0].id == id then Some(companies[0])
    else
      assert forall c :: c in companies <==> c == companies[0] || c in companies[1..];
      FindCompany(companies[1..], id)
  }

  /** The steps shared by both copies once the company is known. */
  function RunImport(mapped: Result<ImportRow>, db: seq<Indicator>, kind: GuardKind, env: Environment): (o: Outcome)
    ensures !HttpOk(env.httpStatus) ==> o == Failed(HttpError(env.httpStatus))
    ensures HttpOk(env.httpStatus) && mapped.Failure? ==> o == Failed(MappingFailed(mapped.error))
    ensures HttpOk(env.httpStatus) && mapped.Success? ==> o == Guard(db, kind, mapped.value, env)
    ensures o != Failed(NoCompanySelected)
    ensures o.Imported? ==> mapped.Success? && o.db == db + [Stored(mapped.value, env.newId)]
  {
    if !HttpOk(env.httpStatus) then Failed(HttpError(env.httpStatus))
    else match mapped
      case Failure(e) => Failed(MappingFailed(e))
      case Success(row) => Guard(db, kind, row, env)
  }

  /** The dialog's import, as written: the selected id is looked up in the
      loaded companies, the payload is mapped, and the guard filters on the
      quarter text. */
  function ImportDialog(companies: seq<Company>, selectedId: string, db: seq<Indicator>, env: Environment): (o: Outcome)
    ensures FindCompany(companies, selectedId).None? <==> o == Failed(NoCompanySelected)
    ensures o.Imported? ==>
              var m := MapDialog(env.payload, selectedId, env.currentYear);
              && m.Success?
              && o.db == db + [Stored(m.value, env.newId)]
    ensures FindCompany(companies, selectedId).Some? ==>
              o == RunImport(MapDialog(env.payload, selectedId, env.currentYear), db, ByQuarterText, env)
    ensures var m := MapDialog(env.payload, selectedId, env.currentYear);
            (&& FindCompany(companies, selectedId).Some? && HttpOk(env.httpStatus) && m.Success?
             && env.probeError.None? && Count(db, ByQuarterText, QuarterKey(selectedId, m.value.period.quarter)) == 1)
            ==> o == AlreadyExists
  {
    match FindCompany(companies, selectedId)
    case None => Failed(NoCompanySelected)
    case Some(_) =>
      var m := MapDialog(env.payload, selectedId, env.currentYear);
      assert m.Success? ==> KeyOf(Stored(m.value, env.newId), ByQuarterText) == QuarterKey(selectedId, m.value.period.quarter);
      RunImport(m, db, ByQuarterText, env)
  }

  /** The dashboard's import, as written: the company is the one shown. */
  function ImportDashboard(selected: Option<Company>, db: seq<Indicator>, env: Environment): (o: Outcome)
    ensures selected.None? <==> o == Failed(NoCompanySelected)
    ensures o.Imported? ==>
              var m := MapDashboard(env.payload, selected.value.id, env.currentYear);
              && m.Success?
              && o.db == db + [Stored(m.value, env.newId)]
              && o.db[|db|].quarter == DashboardPeriodAsWritten(env.currentYear).quarter
    ensures selected.Some? ==>
              o == RunImport(MapDashboard(env.payload, selected.value.id, env.currentYear), db, ByQuarterText, env)
    ensures (&& selected.Some? && HttpOk(env.httpStatus)
             && MapDashboard(env.payload, selected.value.id, env.currentYear).Success?
             && env.probeError.None?
             && Count(db, ByQuarterText, QuarterKey(selected.value.id, DashboardPeriodAsWritten(env.currentYear).quarter)) == 1)
            ==> o == AlreadyExists
  {
    match selected
    case None => Failed(NoCompanySelected)
    case Some(c) => RunImport(MapDashboard(env.payload, c.id, env.currentYear), db, ByQuarterText, env)
  }

  /** The dialog's import with the guard filtering on the period. */
  function ImportDialogCorrected(companies: seq<Company>, selectedId: string, db: seq<Indicator>, env: Environment): (o: Outcome)
    ensures FindCompany(companies, selectedId).None? <==> o == Failed(NoCompanySelected)
    ensures o.Imported? ==>
              var m := MapDialog(env.payload, selectedId, env.currentYear);
              && m.Success?
              && o.db == db + [Stored(m.value, env.newId)]
    ensures FindCompany(companies, selectedId).Some? ==>
              o == RunImport(MapDialog(env.payload, selectedId, env.currentYear), db, ByPeriod, env)
    ensures var m := MapDialog(env.payload, selectedId, env.currentYear);
            (&& FindCompany(companies, selectedId).Some? && HttpOk(env.httpStatus) && m.Success?
             && env.probeError.None? && Count(db, ByPeriod, PeriodKey(selectedId, m.value.period.year, m.value.period.quarterNumber)) == 1)
            ==> o == AlreadyExists
  {
    match FindCompany(companies, selectedId)
    case None => Failed(NoCompanySelected)
    case Some(_) =>
      var m := MapDialog(env.payload, selectedId, env.currentYear);
      assert m.Success? ==> KeyOf(Stored(m.value, env.newId), ByPeriod) == PeriodKey(selectedId, m.value.period.year, m.value.period.quarterNumber);
      RunImport(m, db, ByPeriod, env)
  }

  // ---------------------------------------------------------------- guard properties

  /** A stored row for the same key stops the import with nothing written. */
  lemma ExistingRowBlocksInsert(db: seq<Indicator>, kind: GuardKind, row: ImportRow, env: Environment)
    requires env.probeError.None?
    requires Count(db, kind, KeyOf(Stored(row, env.newId), kind)) == 1
    ensures Guard(db, kind, row, env) == AlreadyExists
  {
  }

  /** A not-single-row probe error reads as "not found"; any other aborts. */
  lemma ProbeErrorHandling(db: seq<Indicator>, kind: GuardKind, row: ImportRow, env: Environment, code: string)
    requires env.probeError == Some(code)
    ensures code == NotSingleRow && env.insertError.None? ==> Guard(db, kind, row, env).Imported?
    ensures code != NotSingleRow ==> Guard(db, kind, row, env) == Failed(ProbeFailed(code))
  {
  }

  /** At most one stored row per key. */
  predicate UniqueKeys(db: seq<Indicator>, kind: GuardKind) {
    forall i, j :: 0 <= i < j < |db| ==> KeyOf(db[i], kind) != KeyOf(db[j], kind)
  }

  lemma {:induction false} UniqueCountAtMostOne(db: seq<Indicator>, kind: GuardKind, k: Key)
    requires UniqueKeys(db, kind)
    ensures Count(db, kind, k) <= 1
  {
    if |db| > 0 {
      assert UniqueKeys(db[1..], kind) by {
        forall i, j | 0 <= i < j < |db[1..]|
          ensures KeyOf(db[1..][i], kind) != KeyOf(db[1..][j], kind)
        {
          assert db[1..][i] == db[i + 1] && db[1..][j] == db[j + 1];
        }
      }
      UniqueCountAtMostOne(db[1..], kind, k);
      if KeyOf(db[0], kind) == k {
        forall d | d in db[1..] ensures KeyOf(d, kind) != k {
          var j :| 0 <= j < |db[1..]| && db[1..][j] == d;
          assert db[j + 1] == d;
        }
      }
    }
  }

  /** The guard keeps the key it filters on unique: from a table with at
      most one row per key, a successful import leaves such a table. */
  lemma GuardPreservesUniqueKeys(db: seq<Indicator>, kind: GuardKind, row: ImportRow, env: Environment)
    requires UniqueKeys(db, kind)
    requires env.probeError.None?
    ensures Guard(db, kind, row, env).Imported? ==> UniqueKeys(Guard(db, kind, row, env).db, kind)
  {
    var x := Stored(row, env.newId);
    if Guard(db, kind, row, env).Imported? {
      UniqueCountAtMostOne(db, kind, KeyOf(x, kind));
      assert Count(db, kind, KeyOf(x, kind)) == 0;
      var db' := db + [x];
      forall i, j | 0 <= i < j < |db'| ensures KeyOf(db'[i], kind) != KeyOf(db'[j], kind) {
        if j == |db| {
          assert db'[i] == db[i] && db[i] in db;
        } else {
          assert db'[i] == db[i] && db'[j] == db[j];
        }
      }
    }
  }

  /** Importing the same quarter again, with nothing else written in
      between, is refused: the first run inserted the only matching row. */
  lemma ReimportIsRefused(db: seq<Indicator>, kind: GuardKind, row: ImportRow, env: Environment, env2: Environment)
    requires Count(db, kind, KeyOf(Stored(row, env.newId), kind)) == 0
    requires Guard(db, kind, row, env).Imported?
    requires env2.probeError.None?
    ensures Guard(Guard(db, kind, row, env).db, kind, row, env2) == AlreadyExists
  {
    var x := Stored(row, env.newId);
    CountOfAppend(db, x, kind, KeyOf(x, kind));
    assert KeyOf(Stored(row, env2.newId), kind) == KeyOf(x, kind);
  }

  // ---------------------------------------------------------------- quarter-text guard

  /** A payload carrying one quarterly balance sheet and nothing else. */
  function BalanceSheetPayload(bs: BalanceSheet): Payload {
    Payload(Some([QuoteResult(AsList([bs]), None, Missing, None, None)]))
  }

  /** A balance sheet ending in February 2024 is filed under the first
      quarter of 2024, keyed "2024TRI1". */
  lemma FebruaryIsFirstQuarter(bs: BalanceSheet, companyId: string, currentYear: int)
    requires bs.endDate == Some(Date(2024, 2))
    ensures var m := MapDialog(BalanceSheetPayload(bs), companyId, currentYear);
            && m.Success?
            && m.value.companyId == companyId
            && m.value.period == Period(2024, 1, TriKey(2024, 1))
  {
    var s := DialogSections(BalanceSheetPayload(bs).results.value[0]);
    assert HasQuarterData(s);
    assert EndDate(s) == Some(Date(2024, 2));
  }

  /** The imported and the manual key of the same period differ right
      after the year: "YYYYTRIq" against "YYYY-Tq". */
  lemma ImportedKeyIsNotManualKey(year: int, q: int)
    ensures TriKey(year, q) != ManualKey(year, q)
  {
    var n := |IntToString(year)|;
    assert TriKey(year, q)[n] == 'T';
    assert ManualKey(year, q)[n] == '-';
  }

  /** The quarter-text guard only sees the key text: a row whose text is
      new for its company is inserted, whatever its period. */
  lemma QuarterTextGuardAdmitsNewText(db: seq<Indicator>, row: ImportRow, env: Environment)
    requires env.probeError.None? && env.insertError.None?
    requires forall d :: d in db ==> d.companyId != row.companyId || d.quarter != row.period.quarter
    ensures Guard(db, ByQuarterText, row, env) == Imported(db + [Stored(row, env.newId)])
  {
    assert Count(db, ByQuarterText, KeyOf(Stored(row, env.newId), ByQuarterText)) == 0;
  }

  /** A stored manual record of the first quarter of 2024 does not stop the
      import of a balance sheet ending in February 2024: the table ends up
      with two records for the same company, year and quarter. */
  lemma QuarterTextGuardAdmitsSamePeriod(manual: Indicator, bs: BalanceSheet, companyId: string, env: Environment)
    requires manual == Indicator(manual.id, companyId, ManualKey(2024, 1), 2024, 1, manual.metrics)
    requires bs.endDate == Some(Date(2024, 2))
    requires env.payload == BalanceSheetPayload(bs)
    requires HttpOk(env.httpStatus) && env.probeError.None? && env.insertError.None?
    ensures var o := ImportDialog([Company(companyId, "Empresa", "EMPR3", "")], companyId, [manual], env);
            && UniqueKeys([manual], ByPeriod)
            && o.Imported?
            && !UniqueKeys(o.db, ByPeriod)
  {
    var companies := [Company(companyId, "Empresa", "EMPR3", "")];
    FebruaryIsFirstQuarter(bs, companyId, env.currentYear);
    ImportedKeyIsNotManualKey(2024, 1);
    var m := MapDialog(env.payload, companyId, env.currentYear);
    QuarterTextGuardAdmitsNewText([manual], m.value, env);
    var x := Stored(m.value, env.newId);
    assert FindCompany(companies, companyId) == Some(companies[0]);
    var o := ImportDialog(companies, companyId, [manual], env);
    assert o == Imported([manual, x]);
    assert KeyOf(o.db[0], ByPeriod) == KeyOf(o.db[1], ByPeriod);
  }

  /** With the guard on the period, at most one record per company, year and
      quarter number is ever stored by imports, whatever the quarter text. */
  lemma CorrectedGuardKeepsPeriodsUnique(companies: seq<Company>, selectedId: string, db: seq<Indicator>, env: Environment)
    requires UniqueKeys(db, ByPeriod)
    requires env.probeError.None?
    ensures var o := ImportDialogCorrected(companies, selectedId, db, env);
            o.Imported? ==> UniqueKeys(o.db, ByPeriod)
  {
    var c := FindCompany(companies, selectedId);
    if c.Some? && HttpOk(env.httpStatus) && MapDialog(env.payload, c.value.id, env.currentYear).Success? {
      GuardPreservesUniqueKeys(db, ByPeriod, MapDialog(env.payload, c.value.id, env.currentYear).value, env);
    }
  }
}
