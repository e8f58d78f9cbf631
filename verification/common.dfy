/**
 Shared vocabulary of the financial-indicators dashboard: optional values with
 JavaScript truthiness, display units, trends, and the quarterly record
 (`FinancialIndicator`) with its optional numeric fields.
 */
module Common {

  /** An optional value; `None` stands for `undefined` or `null`. */
  datatype Option<+T> = None | Some(value: T)

  /** JavaScript truthiness of an optional number: present and non-zero.
      (NaN, the other falsy number, is not part of the model.) */
  predicate Truthy(o: Option<real>) {
    o.Some? && o.value != 0.0
  }

  /** The expression `o || d` on a number. */
  function Or(o: Option<real>, d: real): (r: real)
    ensures Truthy(o) ==> r == o.value
    ensures !Truthy(o) ==> r == d
  {
    if Truthy(o) then o.value else d
  }

  /** The expression `o || null`: a falsy value, zero included, becomes absent. */
  function OrNull(o: Option<real>): (r: Option<real>)
    ensures r.Some? <==> Truthy(o)
    ensures r.Some? ==> r == o && r.value != 0.0
  {
    if Truthy(o) then o else None
  }

  /** `toLowerCase` on ASCII letters; other characters are left alone. */
  function LowerChar(c: char): char {
    if 'A' <= c <= 'Z' then ((c as int) - ('A' as int) + ('a' as int)) as char else c
  }

  function Lower(s: string): (r: string)
    ensures |r| == |s|
    ensures forall i :: 0 <= i < |s| ==> r[i] == LowerChar(s[i])
  {
    seq(|s|, i requires 0 <= i < |s| => LowerChar(s[i]))
  }

  /** Lowercasing twice is lowercasing once. */
  lemma LowerIdempotent(s: string)
    ensures Lower(Lower(s)) == Lower(s)
  {
  }

  /** Display unit of a metric. */
  datatype Unit = Currency | Percentage | Ratio

  /** Direction of a period-over-period change. */
  datatype Trend = Up | Down | Neutral

  /** The optional numeric fields of a quarterly record, in declaration order. */
  datatype Field =
    | ReceitasBensServicos
    | CustoReceitaOperacional
    | DespesasOperacionaisTotal
    | LucroOperacionalAntesReceitaDespesaNaoRecorrente
    | LucroLiquidoAposImpostos
    | LucroPorAcao
    | CaixaEquivalentesCaixa
    | FluxoCaixaLiquidoAtividadesOperacionais
    | VariacaoLiquidaCaixaTotal
    | CapitalGiro
    | EndividamentoTotal
    | PercentualDividaTotalAtivoTotal
    | LiquidezGeral
    | LiquidezCorrente
    | Ebit
    | Ebitda
    | MargemEbitdaPercent
    | MargemLucroBrutoPercent
    | MargemOperacionalPercent
    | MargemLiquidaPercent
    | Roic
    | Roe
    | Roa
    | DividendYield

  /** The property name a field has in the record. */
  function FieldName(f: Field): string {
    match f
    case ReceitasBensServicos => "receitas_bens_servicos"
    case CustoReceitaOperacional => "custo_receita_operacional"
    case DespesasOperacionaisTotal => "despesas_operacionais_total"
    case LucroOperacionalAntesReceitaDespesaNaoRecorrente => "lucro_operacional_antes_receita_despesa_nao_recorrente"
    case LucroLiquidoAposImpostos => "lucro_liquido_apos_impostos"
    case LucroPorAcao => "lucro_por_acao"
    case CaixaEquivalentesCaixa => "caixa_equivalentes_caixa"
    case FluxoCaixaLiquidoAtividadesOperacionais => "fluxo_caixa_liquido_atividades_operacionais"
    case VariacaoLiquidaCaixaTotal => "variacao_liquida_caixa_total"
    case CapitalGiro => "capital_giro"
    case EndividamentoTotal => "endividamento_total"
    case PercentualDividaTotalAtivoTotal => "percentual_divida_total_ativo_total"
    case LiquidezGeral => "liquidez_geral"
    case LiquidezCorrente => "liquidez_corrente"
    case Ebit => "ebit"
    case Ebitda => "ebitda"
    case MargemEbitdaPercent => "margem_ebitda_percent"
    case MargemLucroBrutoPercent => "margem_lucro_bruto_percent"
    case MargemOperacionalPercent => "margem_operacional_percent"
    case MargemLiquidaPercent => "margem_liquida_percent"
    case Roic => "roic"
    case Roe => "roe"
    case Roa => "roa"
    case DividendYield => "dividend_yield"
  }

  /** The numeric part of a quarterly record; every field may be absent. */
  datatype Metrics = Metrics(
    receitasBensServicos: Option<real>,
    custoReceitaOperacional: Option<real>,
    despesasOperacionaisTotal: Option<real>,
    lucroOperacionalAntesReceitaDespesaNaoRecorrente: Option<real>,
    lucroLiquidoAposImpostos: Option<real>,
    lucroPorAcao: Option<real>,
    caixaEquivalentesCaixa: Option<real>,
    fluxoCaixaLiquidoAtividadesOperacionais: Option<real>,
    variacaoLiquidaCaixaTotal: Option<real>,
    capitalGiro: Option<real>,
    endividamentoTotal: Option<real>,
    percentualDividaTotalAtivoTotal: Option<real>,
    liquidezGeral: Option<real>,
    liquidezCorrente: Option<real>,
    ebit: Option<real>,
    ebitda: Option<real>,
    margemEbitdaPercent: Option<real>,
    margemLucroBrutoPercent: Option<real>,
    margemOperacionalPercent: Option<real>,
    margemLiquidaPercent: Option<real>,
    roic: Option<real>,
    roe: Option<real>,
    roa: Option<real>,
    dividendYield: Option<real>)
  {
    /** The indexed access `record[field]`. */
    function Get(f: Field): Option<real> {
      match f
      case ReceitasBensServicos => receitasBensServicos
      case CustoReceitaOperacional => custoReceitaOperacional
      case DespesasOperacionaisTotal => despesasOperacionaisTotal
      case LucroOperacionalAntesReceitaDespesaNaoRecorrente => lucroOperacionalAntesReceitaDespesaNaoRecorrente
      case LucroLiquidoAposImpostos => lucroLiquidoAposImpostos
      case LucroPorAcao => lucroPorAcao
      case CaixaEquivalentesCaixa => caixaEquivalentesCaixa
      case FluxoCaixaLiquidoAtividadesOperacionais => fluxoCaixaLiquidoAtividadesOperacionais
      case VariacaoLiquidaCaixaTotal => variacaoLiquidaCaixaTotal
      case CapitalGiro => capitalGiro
      case EndividamentoTotal => endividamentoTotal
      case PercentualDividaTotalAtivoTotal => percentualDividaTotalAtivoTotal
      case LiquidezGeral => liquidezGeral
      case LiquidezCorrente => liquidezCorrente
      case Ebit => ebit
      case Ebitda => ebitda
      case MargemEbitdaPercent => margemEbitdaPercent
      case MargemLucroBrutoPercent => margemLucroBrutoPercent
      case MargemOperacionalPercent => margemOperacionalPercent
      case MargemLiquidaPercent => margemLiquidaPercent
      case Roic => roic
      case Roe => roe
      case Roa => roa
      case DividendYield => dividendYield
    }
  }

  /** The metrics whose every field is given by `g`. */
  function MetricsOf(g: Field -> Option<real>): (m: Metrics)
    ensures forall f :: m.Get(f) == g(f)
  {
    Metrics(g(ReceitasBensServicos), g(CustoReceitaOperacional), g(DespesasOperacionaisTotal),
            g(LucroOperacionalAntesReceitaDespesaNaoRecorrente), g(LucroLiquidoAposImpostos),
            g(LucroPorAcao), g(CaixaEquivalentesCaixa), g(FluxoCaixaLiquidoAtividadesOperacionais),
            g(VariacaoLiquidaCaixaTotal), g(CapitalGiro), g(EndividamentoTotal),
            g(PercentualDividaTotalAtivoTotal), g(LiquidezGeral), g(LiquidezCorrente), g(Ebit),
            g(Ebitda), g(MargemEbitdaPercent), g(MargemLucroBrutoPercent),
            g(MargemOperacionalPercent), g(MargemLiquidaPercent), g(Roic), g(Roe), g(Roa),
            g(DividendYield))
  }

  /** A quarterly record as stored: identity, period and metrics. */
  datatype Indicator = Indicator(
    id: string,
    companyId: string,
    quarter: string,
    year: int,
    quarterNumber: int,
    metrics: Metrics)
  {
    function Get(f: Field): Option<real> {
      metrics.Get(f)
    }
  }

  /** A company as registered by the user. */
  datatype Company = Company(id: string, nome: string, ticker: string, linkRi: string)
}
