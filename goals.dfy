/** The colour of the sales-progress bar (`create_meta_plot`, `display_meta_vendas`). */
module Goals {
  import opened Records

  datatype BarColor = Red | Yellow | Green

  /** The two sales goals, 30 and 60 million, in cents. */
  const SalesGoals: seq<int> := [30_000_000 * CentsPerReal, 60_000_000 * CentsPerReal]

  /** Red below the first goal, yellow below the second, green from there on. */
  function BarColorFor(total: int, goals: seq<int>): BarColor
    requires |goals| >= 2
  {
    if total < goals[0] then Red
    else if total < goals[1] then Yellow
    else Green
  }

  function Level(c: BarColor): nat {
    match c
    case Red => 0
    case Yellow => 1
    case Green => 2
  }

  /** The bar colour of the dashboard: total sales of the rows after the
      cut-off, over every project. */
  function SalesBarColor(rows: seq<Row>): BarColor {
    BarColorFor(TotalSales(rows), SalesGoals)
  }

  /** With ordered goals the three colours are the three bands
      `[.., g0)`, `[g0, g1)` and `[g1, ..)`, and more sales never lower the
      colour, whatever the goals. */
  lemma BarColorBands(total: int, more: int, goals: seq<int>)
    requires |goals| >= 2
    requires total <= more
    ensures goals[0] <= goals[1] ==>
              && (BarColorFor(total, goals) == Red <==> total < goals[0])
              && (BarColorFor(total, goals) == Yellow <==> goals[0] <= total < goals[1])
              && (BarColorFor(total, goals) == Green <==> goals[1] <= total)
    ensures Level(BarColorFor(total, goals)) <= Level(BarColorFor(more, goals))
  {
  }

  /** On the dashboard: red below 30 million, yellow from 30 up to 60 million,
      green from 60 million on (amounts in cents). */
  lemma SalesBarColorBands(rows: seq<Row>)
    ensures SalesBarColor(rows) == Red <==> TotalSales(rows) < 3_000_000_000
    ensures SalesBarColor(rows) == Yellow <==> 3_000_000_000 <= TotalSales(rows) < 6_000_000_000
    ensures SalesBarColor(rows) == Green <==> 6_000_000_000 <= TotalSales(rows)
  {
  }
}
