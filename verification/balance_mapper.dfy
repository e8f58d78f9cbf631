/**
 The external-payload mapper: turns one market-data quote payload into a
 quarterly record ready for insertion. Two copies exist: the balance-data
 dialog's (src/components/dashboard/BalanceDataDialog.tsx) and an older one
 on the dashboard page (src/pages/Dashboard.tsx), which reads different
 payload paths, never derives the period and omits two fields.
 */
module BalanceMapper {
  import opened Common
  import opened Decimal

  // ---------------------------------------------------------------- payload

  type Month = m: int | 1 <= m <= 12 witness 1

  /** A statement's period-end date, reduced to what the mapper reads. */
  datatype Date = Date(year: int, month: Month)

  datatype BalanceSheet = BalanceSheet(
    endDate: Option<Date>,
    cash: Option<real>,
    totalCurrentAssets: Option<real>,
    totalCurrentLiabilities: Option<real>,
    totalDebt: Option<real>,
    totalAssets: Option<real>,
    totalLiab: Option<real>)

  datatype IncomeStatement = IncomeStatement(
    endDate: Option<Date>,
    totalRevenue: Option<real>,
    costOfRevenue: Option<real>,
    totalOperatingExpenses: Option<real>,
    operatingIncome: Option<real>,
    netIncome: Option<real>,
    ebit: Option<real>,
    ebitda: Option<real>,
    grossProfit: Option<real>,
    netIncomeRatio: Option<real>,
    eps: Option<real>)

  datatype CashFlow = CashFlow(
    endDate: Option<Date>,
    totalCashFromOperatingActivities: Option<real>,
    changeInCash: Option<real>)

  datatype FinancialData = FinancialData(
    returnOnEquity: Option<real>,
    returnOnAssets: Option<real>,
    returnOnInvestedCapital: Option<real>,
    dividendYield: Option<real>,
    earningsPerShare: Option<real>)

  /** A quarterly history as a payload may carry it: missing, a plain list,
      or an object holding the list under a `…Statements` key. */
  datatype History<T> = Missing | AsList(items: seq<T>) | Wrapped(statements: Option<seq<T>>)

  datatype QuoteResult = QuoteResult(
    balanceSheetHistoryQuarterly: History<BalanceSheet>,
    incomeStatementHistory: Option<seq<IncomeStatement>>,  // the inner `incomeStatementHistory` list
    cashflowHistoryQuarterly: History<CashFlow>,
    financialData: Option<FinancialData>,
    regularMarketPrice: Option<real>)

  datatype Payload = Payload(results: Option<seq<QuoteResult>>)

  function Head<T>(s: seq<T>): (r: Option<T>)
    ensures r.Some? <==> |s| > 0
    ensures r.Some? ==> r.value == s[0]
  {
    if |s| == 0 then None else Some(s[0])
  }

  /** `history?.[0]`: only a plain list has an element 0. */
  function ListHead<T>(h: History<T>): Option<T> {
    if h.AsList? then Head(h.items) else None
  }

  /** `history?.…Statements?.[0]`: only the wrapped form has that key. */
  function WrappedHead<T>(h: History<T>): Option<T> {
    if h.Wrapped? && h.statements.Some? then Head(h.statements.value) else None
  }

  /** The two copies read disjoint shapes: no history yields a statement to both. */
  lemma VariantPathsDisjoint<T>(h: History<T>)
    ensures ListHead(h).None? || WrappedHead(h).None?
  {
  }

  /** The latest statements the mapper works from. */
  datatype Sections = Sections(
    balanceSheet: Option<BalanceSheet>,
    incomeStatement: Option<IncomeStatement>,
    cashFlow: Option<CashFlow>,
    financialData: Option<FinancialData>,
    regularMarketPrice: Option<real>)

  function DialogSections(r: QuoteResult): Sections {
    Sections(ListHead(r.balanceSheetHistoryQuarterly),
             if r.incomeStatementHistory.Some? then Head(r.incomeStatementHistory.value) else None,
             ListHead(r.cashflowHistoryQuarterly),
             r.financialData, r.regularMarketPrice)
  }

  function DashboardSections(r: QuoteResult): Sections {
    Sections(WrappedHead(r.balanceSheetHistoryQuarterly),
             if r.incomeStatementHistory.Some? then Head(r.incomeStatementHistory.value) else None,
             WrappedHead(r.cashflowHistoryQuarterly),
             r.financialData, r.regularMarketPrice)
  }

  // ---------------------------------------------------------------- validation

  datatype MapError =
    | NoResults      // "Dados não encontrados na API"
    | NoQuarterData  // "Nenhum dado trimestral encontrado na API"

  datatype Result<T> = Success(value: T) | Failure(error: MapError)

  predicate HasQuarterData(s: Sections) {
    s.balanceSheet.Some? || s.incomeStatement.Some? || s.cashFlow.Some?
  }

  /** Which copy of the mapper reads the payload. */
  datatype Copy = DialogCopy | DashboardCopy

  function SectionsOf(copy: Copy, r: QuoteResult): Sections {
    match copy
    case DialogCopy => DialogSections(r)
    case DashboardCopy => DashboardSections(r)
  }

  /** The validation both copies perform: `results[0]` must exist, and its
      latest statements must include a balance sheet, an income statement
      or a cash flow. */
  function Validate(p: Payload, copy: Copy): (r: Result<Sections>)
    ensures r == Failure(NoResults) <==> p.results.None? || |p.results.value| == 0
    ensures r == Failure(NoQuarterData) <==>
              p.results.Some? && |p.results.value| > 0 && !HasQuarterData(SectionsOf(copy, p.results.value[0]))
    ensures r.Success? ==> HasQuarterData(r.value) && r.value == SectionsOf(copy, p.results.value[0])
  {
    if p.results.None? || |p.results.value| == 0 then Failure(NoResults)
    else
      var s := SectionsOf(copy, p.results.value[0]);
      if HasQuarterData(s) then Success(s) else Failure(NoQuarterData)
  }

  // ---------------------------------------------------------------- period

  /** Year, quarter number and quarter key of a record. */
  datatype Period = Period(year: int, quarterNumber: int, quarter: string)

  /** `Math.ceil(month / 3)`: the quarter that contains the month. */
  function QuarterOfMonth(m: Month): (q: int)
    ensures 1 <= q <= 4
    ensures 3 * q - 2 <= m <= 3 * q
  {
    (m + 2) / 3
  }

  /** Key `YYYYTRIq` of an imported quarter. */
  function TriKey(year: int, q: int): string {
    IntToString(year) + "TRI" + IntToString(q)
  }

  /** Key `YYYY-Q1` used when no date is known. */
  function FirstQuarterKey(year: int): string {
    IntToString(year) + "-Q1"
  }

  /** End date from the balance sheet, else the income statement, else the cash flow. */
  function EndDate(s: Sections): (d: Option<Date>)
    ensures Bs(s).endDate.Some? ==> d == Bs(s).endDate
    ensures Bs(s).endDate.None? && Is(s).endDate.Some? ==> d == Is(s).endDate
    ensures Bs(s).endDate.None? && Is(s).endDate.None? ==> d == Cf(s).endDate
  {
    if s.balanceSheet.Some? && s.balanceSheet.value.endDate.Some? then s.balanceSheet.value.endDate
    else if s.incomeStatement.Some? && s.incomeStatement.value.endDate.Some? then s.incomeStatement.value.endDate
    else if s.cashFlow.Some? then s.cashFlow.value.endDate
    else None
  }

  /** The dialog's period: from the end date when there is one, otherwise the
      current year's first quarter under the `YYYY-Q1` key. */
  function PeriodOf(s: Sections, currentYear: int): (p: Period)
    ensures 1 <= p.quarterNumber <= 4
    ensures EndDate(s).Some? ==>
              && p.year == EndDate(s).value.year
              && 3 * p.quarterNumber - 2 <= EndDate(s).value.month <= 3 * p.quarterNumber
              && p.quarter == TriKey(p.year, p.quarterNumber)
    ensures EndDate(s).None? ==> p == Period(currentYear, 1, FirstQuarterKey(currentYear))
  {
    match EndDate(s)
    case None => Period(currentYear, 1, FirstQuarterKey(currentYear))
    case Some(d) =>
      var q := QuarterOfMonth(d.month);
      Period(d.year, q, TriKey(d.year, q))
  }

  /** The quarter key can be read back: it names the year and quarter number. */
  lemma TriKeyNamesPeriod(year: int, q: int)
    requires 1 <= q <= 4
    ensures TriKey(year, q)[..|IntToString(year)|] == IntToString(year)
    ensures ParseIntPrefix(TriKey(year, q)) == Some(year)
    ensures ParseIntPrefix(TriKey(year, q)[|IntToString(year)| + 3..]) == Some(q)
  {
    var y := IntToString(year);
    var k := TriKey(year, q);
    assert k == y + ("TRI" + IntToString(q));
    ParseIntOfIntToString(year, "TRI" + IntToString(q));
    assert k[|y| + 3..] == IntToString(q) + "";
    ParseIntOfIntToString(q, "");
  }

  // ---------------------------------------------------------------- derived fields

  /** A present ratio times its divisor gives back the scaled dividend. */
  predicate IsScaledRatio(r: Option<real>, a: Option<real>, b: Option<real>, scale: real) {
    r.Some? ==> a.Some? && b.Some? && r.value * b.value == a.value * scale
  }

  /** `a && b ? a / b * scale : null`; the value is stated as a product so
      that callers never reason about the division. */
  function Quotient(a: Option<real>, b: Option<real>, scale: real): (r: Option<real>)
    ensures r.Some? <==> Truthy(a) && Truthy(b)
    ensures IsScaledRatio(r, a, b, scale)
  {
    if Truthy(a) && Truthy(b) then
      var q := a.value / b.value;
      assert (q * scale) * b.value == a.value * scale by {
        assert q * b.value == a.value;
        assert (q * scale) * b.value == (q * b.value) * scale;
      }
      Some(q * scale)
    else None
  }

  /** `a ? a * 100 : null`: a fraction rescaled to a percentage. */
  function Percent(a: Option<real>): (r: Option<real>)
    ensures r.Some? <==> Truthy(a)
    ensures r.Some? ==> r.value == a.value * 100.0 && r.value / 100.0 == a.value && r.value != 0.0
  {
    if Truthy(a) then Some(a.value * 100.0) else None
  }

  /** `(ca || 0) - (cl || 0) || null`: computed even from one operand, and
      absent exactly when the difference is zero. */
  function WorkingCapital(ca: Option<real>, cl: Option<real>): (r: Option<real>)
    ensures r.Some? <==> Or(ca, 0.0) != Or(cl, 0.0)
    ensures r.Some? ==> r.value + Or(cl, 0.0) == Or(ca, 0.0)
  {
    OrNull(Some(Or(ca, 0.0) - Or(cl, 0.0)))
  }

  /** `a || b || null`. */
  function FirstTruthy(a: Option<real>, b: Option<real>): (r: Option<real>)
    ensures Truthy(a) ==> r == a
    ensures !Truthy(a) ==> r == OrNull(b)
  {
    if Truthy(a) then a else OrNull(b)
  }

  const NoBalanceSheet := BalanceSheet(None, None, None, None, None, None, None)
  const NoIncomeStatement := IncomeStatement(None, None, None, None, None, None, None, None, None, None, None)
  const NoCashFlow := CashFlow(None, None, None)
  const NoFinancialData := FinancialData(None, None, None, None, None)

  /** Optional chaining `section?.x` reads `x` of an all-absent section. */
  function Bs(s: Sections): BalanceSheet {
    if s.balanceSheet.Some? then s.balanceSheet.value else NoBalanceSheet
  }

  function Is(s: Sections): IncomeStatement {
    if s.incomeStatement.Some? then s.incomeStatement.value else NoIncomeStatement
  }

  function Cf(s: Sections): CashFlow {
    if s.cashFlow.Some? then s.cashFlow.value else NoCashFlow
  }

  function Fd(s: Sections): FinancialData {
    if s.financialData.Some? then s.financialData.value else NoFinancialData
  }

  /** Columns the mapper inserts that the record type does not carry. */
  datatype Extras = Extras(
    ativoCirculante: Option<real>,
    passivoCirculante: Option<real>,
    ativoTotal: Option<real>,
    passivoTotal: Option<real>,
    precoAcao: Option<real>)

  /** A row ready for insertion. */
  datatype ImportRow = ImportRow(companyId: string, period: Period, metrics: Metrics, extras: Extras)

  /** The metrics the dialog copy derives from the latest statements
      (an absent statement reads as one with every field absent). */
  function MetricsFrom(bs: BalanceSheet, inc: IncomeStatement, cf: CashFlow, fd: FinancialData): (m: Metrics)
    // pass-through fields: falsy values, zero included, become absent
    ensures m.receitasBensServicos == OrNull(inc.totalRevenue)
    ensures m.custoReceitaOperacional == OrNull(inc.costOfRevenue)
    ensures m.despesasOperacionaisTotal == OrNull(inc.totalOperatingExpenses)
    ensures m.lucroOperacionalAntesReceitaDespesaNaoRecorrente == OrNull(inc.operatingIncome)
    ensures m.lucroLiquidoAposImpostos == OrNull(inc.netIncome)
    ensures m.caixaEquivalentesCaixa == OrNull(bs.cash)
    ensures m.fluxoCaixaLiquidoAtividadesOperacionais == OrNull(cf.totalCashFromOperatingActivities)
    ensures m.variacaoLiquidaCaixaTotal == OrNull(cf.changeInCash)
    ensures m.endividamentoTotal == OrNull(bs.totalDebt)
    ensures m.ebitda == OrNull(inc.ebitda) && m.ebit == OrNull(inc.ebit)
    // working capital: computed from either operand, absent when it is zero
    ensures m.capitalGiro.Some? <==> Or(bs.totalCurrentAssets, 0.0) != Or(bs.totalCurrentLiabilities, 0.0)
    ensures m.capitalGiro.Some? ==>
              m.capitalGiro.value == Or(bs.totalCurrentAssets, 0.0) - Or(bs.totalCurrentLiabilities, 0.0)
    // ratios: present when both operands are truthy, with the value of `a / b * scale`
    ensures m.liquidezCorrente.Some? <==> Truthy(bs.totalCurrentAssets) && Truthy(bs.totalCurrentLiabilities)
    ensures IsScaledRatio(m.liquidezCorrente, bs.totalCurrentAssets, bs.totalCurrentLiabilities, 1.0)
    ensures m.liquidezGeral.Some? <==> Truthy(bs.totalAssets) && Truthy(bs.totalLiab)
    ensures IsScaledRatio(m.liquidezGeral, bs.totalAssets, bs.totalLiab, 1.0)
    ensures m.percentualDividaTotalAtivoTotal.Some? <==> Truthy(bs.totalDebt) && Truthy(bs.totalAssets)
    ensures IsScaledRatio(m.percentualDividaTotalAtivoTotal, bs.totalDebt, bs.totalAssets, 100.0)
    ensures m.margemEbitdaPercent.Some? <==> Truthy(inc.ebitda) && Truthy(inc.totalRevenue)
    ensures IsScaledRatio(m.margemEbitdaPercent, inc.ebitda, inc.totalRevenue, 100.0)
    ensures m.margemOperacionalPercent.Some? <==> Truthy(inc.operatingIncome) && Truthy(inc.totalRevenue)
    ensures IsScaledRatio(m.margemOperacionalPercent, inc.operatingIncome, inc.totalRevenue, 100.0)
    ensures m.margemLucroBrutoPercent.Some? <==> Truthy(inc.grossProfit) && Truthy(inc.totalRevenue)
    ensures IsScaledRatio(m.margemLucroBrutoPercent, inc.grossProfit, inc.totalRevenue, 100.0)
    // fractions rescaled to percentages: present exactly when the fraction is truthy
    ensures m.margemLiquidaPercent.Some? <==> Truthy(inc.netIncomeRatio)
    ensures m.margemLiquidaPercent.Some? ==> m.margemLiquidaPercent.value == inc.netIncomeRatio.value * 100.0
    ensures m.roe.Some? <==> Truthy(fd.returnOnEquity)
    ensures m.roe.Some? ==> m.roe.value == fd.returnOnEquity.value * 100.0
    ensures m.roa.Some? <==> Truthy(fd.returnOnAssets)
    ensures m.roa.Some? ==> m.roa.value == fd.returnOnAssets.value * 100.0
    ensures m.roic.Some? <==> Truthy(fd.returnOnInvestedCapital)
    ensures m.roic.Some? ==> m.roic.value == fd.returnOnInvestedCapital.value * 100.0
    ensures m.dividendYield.Some? <==> Truthy(fd.dividendYield)
    ensures m.dividendYield.Some? ==> m.dividendYield.value == fd.dividendYield.value * 100.0
    // earnings per share: the first truthy of the two sources
    ensures m.lucroPorAcao == FirstTruthy(inc.eps, fd.earningsPerShare)
  {
    Metrics(
      receitasBensServicos := OrNull(inc.totalRevenue),
      custoReceitaOperacional := OrNull(inc.costOfRevenue),
      despesasOperacionaisTotal := OrNull(inc.totalOperatingExpenses),
      lucroOperacionalAntesReceitaDespesaNaoRecorrente := OrNull(inc.operatingIncome),
      lucroLiquidoAposImpostos := OrNull(inc.netIncome),
      lucroPorAcao := FirstTruthy(inc.eps, fd.earningsPerShare),
      caixaEquivalentesCaixa := OrNull(bs.cash),
      fluxoCaixaLiquidoAtividadesOperacionais := OrNull(cf.totalCashFromOperatingActivities),
      variacaoLiquidaCaixaTotal := OrNull(cf.changeInCash),
      capitalGiro := WorkingCapital(bs.totalCurrentAssets, bs.totalCurrentLiabilities),
      endividamentoTotal := OrNull(bs.totalDebt),
      percentualDividaTotalAtivoTotal := Quotient(bs.totalDebt, bs.totalAssets, 100.0),
      liquidezGeral := Quotient(bs.totalAssets, bs.totalLiab, 1.0),
      liquidezCorrente := Quotient(bs.totalCurrentAssets, bs.totalCurrentLiabilities, 1.0),
      ebit := OrNull(inc.ebit),
      ebitda := OrNull(inc.ebitda),
      margemEbitdaPercent := Quotient(inc.ebitda, inc.totalRevenue, 100.0),
      margemLucroBrutoPercent := Quotient(inc.grossProfit, inc.totalRevenue, 100.0),
      margemOperacionalPercent := Quotient(inc.operatingIncome, inc.totalRevenue, 100.0),
      margemLiquidaPercent := Percent(inc.netIncomeRatio),
      roic := Percent(fd.returnOnInvestedCapital),
      roe := Percent(fd.returnOnEquity),
      roa := Percent(fd.returnOnAssets),
      dividendYield := Percent(fd.dividendYield))
  }

  /** The dialog copy's metrics, read from the sections of the payload. */
  function DialogMetrics(s: Sections): Metrics {
    MetricsFrom(Bs(s), Is(s), Cf(s), Fd(s))
  }

  function ExtrasOf(s: Sections, withPrice: bool): Extras {
    Extras(OrNull(Bs(s).totalCurrentAssets), OrNull(Bs(s).totalCurrentLiabilities),
           OrNull(Bs(s).totalAssets), OrNull(Bs(s).totalLiab),
           if withPrice then OrNull(s.regularMarketPrice) else None)
  }

  /** `fetchBalanceData` of the balance-data dialog, up to the duplicate
      check: validation failures pass through, and a valid payload yields the
      row of its sections, filed under their period. */
  function MapDialog(p: Payload, companyId: string, currentYear: int): (r: Result<ImportRow>)
    ensures r.Failure? <==> Validate(p, DialogCopy).Failure?
    ensures r.Failure? ==> r.error == Validate(p, DialogCopy).error
    ensures r.Success? ==>
              var s := Validate(p, DialogCopy).value;
              && r.value.companyId == companyId
              && r.value.period == PeriodOf(s, currentYear)
              && r.value.metrics == DialogMetrics(s)
              && r.value.extras == ExtrasOf(s, true)
  {
    match Validate(p, DialogCopy)
    case Failure(e) => Failure(e)
    case Success(s) => Success(ImportRow(companyId, PeriodOf(s, currentYear), DialogMetrics(s), ExtrasOf(s, true)))
  }

  /** A reported zero is indistinguishable from a missing value once mapped. */
  lemma ZeroRevenueIsDropped(s: Sections)
    requires s.incomeStatement.Some? && s.incomeStatement.value.totalRevenue == Some(0.0)
    ensures DialogMetrics(s).receitasBensServicos.None?
    ensures DialogMetrics(s).margemEbitdaPercent.None?
    ensures DialogMetrics(s).margemOperacionalPercent.None?
    ensures DialogMetrics(s).margemLucroBrutoPercent.None?
  {
  }

  /** Worked example: current assets 500 and current liabilities 200 give a
      working capital of 300 and a current ratio of 2.5. */
  lemma WorkingCapitalExample(s: Sections)
    requires s.balanceSheet.Some?
    requires s.balanceSheet.value.totalCurrentAssets == Some(500.0)
    requires s.balanceSheet.value.totalCurrentLiabilities == Some(200.0)
    ensures DialogMetrics(s).capitalGiro == Some(300.0)
    ensures DialogMetrics(s).liquidezCorrente == Some(2.5)
  {
  }

  // ---------------------------------------------------------------- dashboard copy

  /** The dashboard copy's metrics, its own object literal: it never sets
      general liquidity, ROIC or earnings per share. */
  function DashboardMetrics(s: Sections): (m: Metrics)
    ensures m.liquidezGeral.None? && m.roic.None? && m.lucroPorAcao.None?
  {
    var bs, inc, cf, fd := Bs(s), Is(s), Cf(s), Fd(s);
    Metrics(
      receitasBensServicos := OrNull(inc.totalRevenue),
      custoReceitaOperacional := OrNull(inc.costOfRevenue),
      despesasOperacionaisTotal := OrNull(inc.totalOperatingExpenses),
      lucroOperacionalAntesReceitaDespesaNaoRecorrente := OrNull(inc.operatingIncome),
      lucroLiquidoAposImpostos := OrNull(inc.netIncome),
      lucroPorAcao := None,
      caixaEquivalentesCaixa := OrNull(bs.cash),
      fluxoCaixaLiquidoAtividadesOperacionais := OrNull(cf.totalCashFromOperatingActivities),
      variacaoLiquidaCaixaTotal := OrNull(cf.changeInCash),
      capitalGiro := WorkingCapital(bs.totalCurrentAssets, bs.totalCurrentLiabilities),
      endividamentoTotal := OrNull(bs.totalDebt),
      percentualDividaTotalAtivoTotal := Quotient(bs.totalDebt, bs.totalAssets, 100.0),
      liquidezGeral := None,
      liquidezCorrente := Quotient(bs.totalCurrentAssets, bs.totalCurrentLiabilities, 1.0),
      ebit := OrNull(inc.ebit),
      ebitda := OrNull(inc.ebitda),
      margemEbitdaPercent := Quotient(inc.ebitda, inc.totalRevenue, 100.0),
      margemLucroBrutoPercent := Quotient(inc.grossProfit, inc.totalRevenue, 100.0),
      margemOperacionalPercent := Quotient(inc.operatingIncome, inc.totalRevenue, 100.0),
      margemLiquidaPercent := Percent(inc.netIncomeRatio),
      roic := None,
      roe := Percent(fd.returnOnEquity),
      roa := Percent(fd.returnOnAssets),
      dividendYield := Percent(fd.dividendYield))
  }

  /** The dashboard copy's period as written: the placeholder of the current
      year's first quarter is never replaced by the statements' end date. */
  function DashboardPeriodAsWritten(currentYear: int): Period {
    Period(currentYear, 1, FirstQuarterKey(currentYear))
  }

  /** `fetchBalanceData` of the dashboard page as written, up to the
      duplicate check: the same validation on the other payload paths, the
      placeholder period, and no share price. */
  function MapDashboard(p: Payload, companyId: string, currentYear: int): (r: Result<ImportRow>)
    ensures r.Failure? <==> Validate(p, DashboardCopy).Failure?
    ensures r.Failure? ==> r.error == Validate(p, DashboardCopy).error
    ensures r.Success? ==>
              var s := Validate(p, DashboardCopy).value;
              && r.value.companyId == companyId
              && r.value.period == DashboardPeriodAsWritten(currentYear)
              && r.value.metrics == DashboardMetrics(s)
              && r.value.extras.precoAcao.None?
  {
    match Validate(p, DashboardCopy)
    case Failure(e) => Failure(e)
    case Success(s) => Success(ImportRow(companyId, DashboardPeriodAsWritten(currentYear), DashboardMetrics(s), ExtrasOf(s, false)))
  }

  /** The dashboard copy files statements of any quarter under the current
      year's first quarter: two payloads for different quarters get the same
      key, so the second import is refused as a duplicate. */
  lemma DashboardPeriodIgnoresEndDate(p1: Payload, p2: Payload, companyId: string, currentYear: int)
    requires MapDashboard(p1, companyId, currentYear).Success?
    requires MapDashboard(p2, companyId, currentYear).Success?
    ensures MapDashboard(p1, companyId, currentYear).value.period
         == MapDashboard(p2, companyId, currentYear).value.period
  {
  }

  /** The dashboard copy with its period derived as the placeholder comment
      promises: the record lands in the quarter that contains the end date. */
  function MapDashboardCorrected(p: Payload, companyId: string, currentYear: int): (r: Result<ImportRow>)
    ensures r.Failure? <==> Validate(p, DashboardCopy).Failure?
    ensures r.Failure? ==> r.error == Validate(p, DashboardCopy).error
    ensures r.Success? ==>
              var s := Validate(p, DashboardCopy).value;
              && r.value.companyId == companyId
              && r.value.period == PeriodOf(s, currentYear)
              && r.value.metrics == DashboardMetrics(s)
              && r.value.extras.precoAcao.None?
              && 1 <= r.value.period.quarterNumber <= 4
              && (EndDate(s).Some? ==> r.value.period.quarter == TriKey(r.value.period.year, r.value.period.quarterNumber))
              && (EndDate(s).None? ==> r.value.period == Period(currentYear, 1, FirstQuarterKey(currentYear)))
              && (EndDate(s).Some? ==>
                    && r.value.period.year == EndDate(s).value.year
                    && 3 * r.value.period.quarterNumber - 2 <= EndDate(s).value.month <= 3 * r.value.period.quarterNumber)
  {
    match Validate(p, DashboardCopy)
    case Failure(e) => Failure(e)
    case Success(s) => Success(ImportRow(companyId, PeriodOf(s, currentYear), DashboardMetrics(s), ExtrasOf(s, false)))
  }

  /** On the same sections, the two copies agree on every metric except the
      three the dashboard copy omits. */
  lemma CopiesAgreeOnSharedMetrics(s: Sections)
    ensures DashboardMetrics(s) == DialogMetrics(s).(liquidezGeral := None, roic := None, lucroPorAcao := None)
  {
  }
}
