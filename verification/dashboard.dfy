/**
 The dashboard page (src/pages/Dashboard.tsx) apart from its data loading:
 the field-to-unit classifier, the chart series, the company search filter,
 the "latest result" money label and the per-metric panel that ties the
 comparator to the comparison card.
 */
module Dashboard {
  import opened Common
  import Comparator
  import ComparisonCard

  // ---------------------------------------------------------------- units

  const PercentageFields: seq<string> := [
    "margem_ebitda_percent", "margem_lucro_bruto_percent", "margem_operacional_percent",
    "margem_liquida_percent", "roe", "roa", "roic", "dividend_yield",
    "percentual_divida_total_ativo_total"]

  const RatioFields: seq<string> := ["liquidez_corrente", "liquidez_geral"]

  /** No field name is on both lists. */
  lemma UnitListsDisjoint()
    ensures forall s :: s in PercentageFields ==> s !in RatioFields
  {
  }

  /** `getIndicatorUnit`: the percentage list is consulted first, then the
      ratio list; anything else is currency. Because the lists are disjoint
      each unit holds exactly for its own list. */
  function IndicatorUnit(field: string): (u: Unit)
    ensures u == Percentage <==> field in PercentageFields
    ensures u == Ratio <==> field in RatioFields
    ensures u == Currency <==> field !in PercentageFields && field !in RatioFields
  {
    UnitListsDisjoint();
    if field in PercentageFields then Percentage
    else if field in RatioFields then Ratio
    else Currency
  }

  /** The unit of every record field, as one explicit table. */
  function RegistryUnit(f: Field): Unit {
    match f
    case MargemEbitdaPercent | MargemLucroBrutoPercent | MargemOperacionalPercent
       | MargemLiquidaPercent | Roe | Roa | Roic | DividendYield
       | PercentualDividaTotalAtivoTotal => Percentage
    case LiquidezCorrente | LiquidezGeral => Ratio
    case _ => Currency
  }

  /** The list-based classifier agrees with the table on every record field. */
  lemma UnitMatchesRegistry(f: Field)
    ensures IndicatorUnit(FieldName(f)) == RegistryUnit(f)
  {
    match RegistryUnit(f)
    case Percentage => PercentageFieldsListed(f);
    case Ratio => RatioFieldsListed(f);
    case Currency => CurrencyFieldsNotPercentages(f); CurrencyFieldsNotRatios(f);
  }

  lemma PercentageFieldsListed(f: Field)
    requires RegistryUnit(f) == Percentage
    ensures FieldName(f) in PercentageFields
  {
  }

  lemma RatioFieldsListed(f: Field)
    requires RegistryUnit(f) == Ratio
    ensures FieldName(f) in RatioFields
  {
  }

  lemma CurrencyFieldsNotPercentages(f: Field)
    requires RegistryUnit(f) == Currency
    ensures FieldName(f) !in PercentageFields
  {
    forall i | 0 <= i < |PercentageFields| ensures FieldName(f) != PercentageFields[i] {
      NotAListedName(f, PercentageFields[i]);
    }
  }

  lemma CurrencyFieldsNotRatios(f: Field)
    requires RegistryUnit(f) == Currency
    ensures FieldName(f) !in RatioFields
  {
    forall i | 0 <= i < |RatioFields| ensures FieldName(f) != RatioFields[i] {
      NotAListedName(f, RatioFields[i]);
    }
  }

  /** A currency field's name is none of the listed names; the fields are
      taken a few at a time. */
  lemma NotAListedName(f: Field, name: string)
    requires RegistryUnit(f) == Currency
    requires name in PercentageFields || name in RatioFields
    ensures FieldName(f) != name
  {
    match f
    case ReceitasBensServicos | CustoReceitaOperacional | DespesasOperacionaisTotal
       | LucroOperacionalAntesReceitaDespesaNaoRecorrente => RevenueNamesNotListed(f, name);
    case LucroLiquidoAposImpostos | LucroPorAcao | Ebit | Ebitda => EarningsNamesNotListed(f, name);
    case CaixaEquivalentesCaixa | FluxoCaixaLiquidoAtividadesOperacionais | VariacaoLiquidaCaixaTotal =>
      CashNamesNotListed(f, name);
    case CapitalGiro | EndividamentoTotal => DebtNamesNotListed(f, name);
  }

  lemma RevenueNamesNotListed(f: Field, name: string)
    requires f.ReceitasBensServicos? || f.CustoReceitaOperacional? || f.DespesasOperacionaisTotal?
             || f.LucroOperacionalAntesReceitaDespesaNaoRecorrente?
    requires name in PercentageFields || name in RatioFields
    ensures FieldName(f) != name
  {
  }

  lemma EarningsNamesNotListed(f: Field, name: string)
    requires f.LucroLiquidoAposImpostos? || f.LucroPorAcao? || f.Ebit? || f.Ebitda?
    requires name in PercentageFields || name in RatioFields
    ensures FieldName(f) != name
  {
  }

  lemma CashNamesNotListed(f: Field, name: string)
    requires f.CaixaEquivalentesCaixa? || f.FluxoCaixaLiquidoAtividadesOperacionais? || f.VariacaoLiquidaCaixaTotal?
    requires name in PercentageFields || name in RatioFields
    ensures FieldName(f) != name
  {
  }

  lemma DebtNamesNotListed(f: Field, name: string)
    requires f.CapitalGiro? || f.EndividamentoTotal?
    requires name in PercentageFields || name in RatioFields
    ensures FieldName(f) != name
  {
  }

  // ---------------------------------------------------------------- chart

  datatype ChartPoint = ChartPoint(quarter: string, value: real)

  /** `getChartData`: records lacking the field are dropped, the rest become
      (quarter, value) points in reverse order, oldest first for a series
      loaded newest first. */
  function ChartData(records: seq<Indicator>, f: Field): (r: seq<ChartPoint>)
    ensures |r| <= |records|
    ensures forall p :: p in r ==> exists d :: d in records && d.quarter == p.quarter && d.Get(f) == Some(p.value)
  {
    if |records| == 0 then []
    else
      var rest := ChartData(records[1..], f);
      assert forall d :: d in records[1..] ==> d in records;
      var d := records[0];
      if d.Get(f).Some? then rest + [ChartPoint(d.quarter, d.Get(f).value)] else rest
  }

  /** Number of records that carry the field. */
  function CountPresent(records: seq<Indicator>, f: Field): nat {
    if |records| == 0 then 0
    else (if records[0].Get(f).Some? then 1 else 0) + CountPresent(records[1..], f)
  }

  /** One point per record carrying the field. */
  lemma {:induction false} ChartDataLength(records: seq<Indicator>, f: Field)
    ensures |ChartData(records, f)| == CountPresent(records, f)
  {
    if |records| > 0 {
      ChartDataLength(records[1..], f);
    }
  }

  /** The series is reversed: the points of a later block of records come
      before those of an earlier block. */
  lemma {:induction false} ChartDataOfConcat(a: seq<Indicator>, b: seq<Indicator>, f: Field)
    ensures ChartData(a + b, f) == ChartData(b, f) + ChartData(a, f)
  {
    if |a| == 0 {
      assert a + b == b;
    } else {
      assert (a + b)[1..] == a[1..] + b;
      ChartDataOfConcat(a[1..], b, f);
    }
  }

  // ---------------------------------------------------------------- search

  /** `s.includes(sub)`. */
  predicate Includes(s: string, sub: string)
    decreases |s|
  {
    sub <= s || (|s| > 0 && Includes(s[1..], sub))
  }

  predicate MatchesQuery(c: Company, query: string) {
    Includes(Lower(c.nome), Lower(query)) || Includes(Lower(c.ticker), Lower(query))
  }

  /** `a` is `b` with some elements dropped, the rest in their order. */
  predicate IsSubsequence<T(==)>(a: seq<T>, b: seq<T>)
    decreases |b|
  {
    |a| == 0 || (|b| > 0 && ((a[0] == b[0] && IsSubsequence(a[1..], b[1..])) || IsSubsequence(a, b[1..])))
  }

  lemma {:induction false} SubsequenceOfItself<T>(a: seq<T>)
    ensures IsSubsequence(a, a)
  {
    if |a| > 0 {
      SubsequenceOfItself(a[1..]);
    }
  }

  /** The company search: an empty query keeps every company; otherwise
      exactly the companies whose lowercased name or ticker contains the
      lowercased query are kept, each as often as it occurs, in their
      original order. */
  function SearchCompanies(companies: seq<Company>, query: string): (r: seq<Company>)
    ensures query == "" ==> r == companies
    ensures forall c :: c in r <==> c in companies && (query == "" || MatchesQuery(c, query))
    ensures forall c :: multiset(r)[c] == if query == "" || MatchesQuery(c, query) then multiset(companies)[c] else 0
    ensures IsSubsequence(r, companies)
    ensures |r| <= |companies|
  {
    if query == "" || |companies| == 0 then
      SubsequenceOfItself(companies);
      companies
    else
      var c0, tail := companies[0], companies[1..];
      var rest := SearchCompanies(tail, query);
      assert multiset(companies) == multiset([c0]) + multiset(tail) by {
        assert companies == [c0] + tail;
      }
      assert forall c :: c in companies <==> c == c0 || c in tail by {
        assert companies == [c0] + tail;
      }
      if MatchesQuery(c0, query) then
        var r := [c0] + rest;
        assert IsSubsequence(r, companies) by {
          assert r[1..] == rest;
        }
        assert forall c :: multiset(r)[c] == if MatchesQuery(c, query) then multiset(companies)[c] else 0 by {
          assert multiset(r) == multiset([c0]) + multiset(rest);
        }
        r
      else
        rest
  }

  /** The search is case-insensitive in its query. */
  lemma {:induction false} SearchIgnoresQueryCase(companies: seq<Company>, query: string)
    ensures SearchCompanies(companies, Lower(query)) == SearchCompanies(companies, query)
  {
    LowerIdempotent(query);
    if query != "" && |companies| > 0 {
      assert Lower(query) != "";
      SearchIgnoresQueryCase(companies[1..], query);
    }
  }

  // ---------------------------------------------------------------- latest result

  /** `formatInMillions`: zero is printed as "R$ 0", anything else in millions. */
  datatype MoneyLabel = ZeroReais | MillionsOfReais(millions: real)

  function FormatInMillions(v: real): (r: MoneyLabel)
    ensures r.ZeroReais? <==> v == 0.0
    ensures r.MillionsOfReais? ==> r.millions * 1000000.0 == v
  {
    if v == 0.0 then ZeroReais else MillionsOfReais(v / 1000000.0)
  }

  /** The revenue and net-income labels pass `value || 0`, so a missing
      value prints as "R$ 0", the same as a reported zero. */
  lemma MissingLatestValuePrintsZero(o: Option<real>)
    ensures FormatInMillions(Or(o, 0.0)).ZeroReais? <==> !Truthy(o)
  {
  }

  // ---------------------------------------------------------------- metric panel

  /** The six field lists the detailed analysis maps over, in page order:
      revenue and operations, cash, debt, liquidity, profitability, returns. */
  const PanelSections: seq<seq<Field>> := [
    [ReceitasBensServicos, CustoReceitaOperacional, DespesasOperacionaisTotal,
     LucroOperacionalAntesReceitaDespesaNaoRecorrente, LucroLiquidoAposImpostos],
    [CaixaEquivalentesCaixa, FluxoCaixaLiquidoAtividadesOperacionais, VariacaoLiquidaCaixaTotal],
    [CapitalGiro, EndividamentoTotal, PercentualDividaTotalAtivoTotal],
    [LiquidezGeral, LiquidezCorrente],
    [Ebit, Ebitda, MargemEbitdaPercent, MargemLucroBrutoPercent, MargemOperacionalPercent,
     MargemLiquidaPercent],
    [Roic, Roe, Roa, DividendYield]]

  /** A field some section of the page draws a panel for. */
  predicate OnPage(f: Field) {
    exists i :: 0 <= i < |PanelSections| && f in PanelSections[i]
  }

  /** The section listing a field; earnings per share, listed nowhere, is
      given section 0 only to keep the function total. */
  function SectionOf(f: Field): nat {
    match f
    case ReceitasBensServicos | CustoReceitaOperacional | DespesasOperacionaisTotal
      | LucroOperacionalAntesReceitaDespesaNaoRecorrente | LucroLiquidoAposImpostos | LucroPorAcao => 0
    case CaixaEquivalentesCaixa | FluxoCaixaLiquidoAtividadesOperacionais | VariacaoLiquidaCaixaTotal => 1
    case CapitalGiro | EndividamentoTotal | PercentualDividaTotalAtivoTotal => 2
    case LiquidezGeral | LiquidezCorrente => 3
    case Ebit | Ebitda | MargemEbitdaPercent | MargemLucroBrutoPercent | MargemOperacionalPercent
      | MargemLiquidaPercent => 4
    case Roic | Roe | Roa | DividendYield => 5
  }

  /** Every field has a panel except earnings per share, which no section
      lists. */
  lemma OnPageExceptEarningsPerShare(f: Field)
    ensures OnPage(f) <==> f != LucroPorAcao
  {
    if f != LucroPorAcao {
      var i := SectionOf(f);
      assert f in PanelSections[i];
    }
  }

  /** The chart and comparison card shown for one field of the latest record. */
  datatype Panel = Panel(unit: Unit, chart: seq<ChartPoint>, card: ComparisonCard.View)

  /** A field no section lists, or whose latest value is missing, gets no
      panel; otherwise the chart draws the field's series and the card
      compares `value || 0` with the comparator's two reference values. */
  function MetricPanel(records: seq<Indicator>, latest: Indicator, f: Field): (p: Option<Panel>)
    ensures p.Some? <==> OnPage(f) && latest.Get(f).Some?
    ensures p.Some? ==> p.value.unit == IndicatorUnit(FieldName(f))
    ensures p.Some? ==> p.value.chart == ChartData(records, f)
    ensures p.Some? ==> p.value.card.currentText
                        == ComparisonCard.FormatCardValue(p.value.unit, ComparisonCard.Num(latest.Get(f).value))
  {
    var value := latest.Get(f);
    if !OnPage(f) || value.None? then None
    else
      var unit := IndicatorUnit(FieldName(f));
      var cmp := Comparator.GetComparison(records, value, f);
      var previousQuarter := if cmp.Some? then cmp.value.previousQuarter else None;
      var sameQuarterLastYear := if cmp.Some? then cmp.value.sameQuarterLastYear else None;
      Some(Panel(unit, ChartData(records, f),
                 ComparisonCard.Render(unit, Or(value, 0.0), previousQuarter, sameQuarterLastYear)))
  }

  /** A panel's chart has one point per record carrying the field, each
      point taken from such a record. */
  lemma PanelChartHasOnePointPerRecord(records: seq<Indicator>, latest: Indicator, f: Field)
    ensures var p := MetricPanel(records, latest, f);
            p.Some? ==> && |p.value.chart| == CountPresent(records, f)
                        && forall q :: q in p.value.chart ==>
                             exists d :: d in records && d.quarter == q.quarter && d.Get(f) == Some(q.value)
  {
    ChartDataLength(records, f);
  }

  /** A latest value of zero still gets a panel, but the comparator refuses
      it, so the card shows no comparison row. */
  lemma ZeroValueShowsNoComparison(records: seq<Indicator>, latest: Indicator, f: Field)
    requires latest.Get(f) == Some(0.0)
    ensures var p := MetricPanel(records, latest, f);
            && (p.Some? <==> OnPage(f))
            && (p.Some? ==> p.value.card.quarterRow.None? && p.value.card.yearRow.None?)
  {
  }

  /** For a non-zero latest value held by a record of the series, the
      comparator finds a target, and the quarter row is shown exactly when
      the comparator's previous-quarter value is truthy. */
  lemma LatestValueIsCompared(records: seq<Indicator>, latest: Indicator, f: Field)
    requires latest in records && Truthy(latest.Get(f))
    ensures var cmp := Comparator.GetComparison(records, latest.Get(f), f);
            var p := MetricPanel(records, latest, f);
            && cmp.Some?
            && (p.Some? <==> OnPage(f))
            && (p.Some? ==> && (p.value.card.quarterRow.Some? <==> Truthy(cmp.value.previousQuarter))
                            && (p.value.card.yearRow.Some? <==> Truthy(cmp.value.sameQuarterLastYear)))
  {
    var v := latest.Get(f);
    var cmp := Comparator.GetComparison(records, v, f);
    assert cmp.Some? by {
      assert latest in records && latest.Get(f) == v;
    }
    var card := ComparisonCard.Render(IndicatorUnit(FieldName(f)), Or(v, 0.0),
                                      cmp.value.previousQuarter, cmp.value.sameQuarterLastYear);
    if OnPage(f) {
      assert MetricPanel(records, latest, f).value.card == card;
    }
  }
}
