/**
 * The leaderboard (`filter_by_empreendimento`, `prepare_data`,
 * `calcular_primeiro_lugar`): rows of the selected project are grouped by the
 * raw agent name, contract values are summed per agent, the groups are
 * sorted by total, highest first, and only then are the names turned into
 * display names. A colour list highlights the first place.
 */
module Ranking {
  import opened Wrappers
  import opened Seqs
  import opened Records
  import opened Names

  /** The filter value that selects every project (also the default when no
      filter was chosen yet). */
  const AllProjects: string := "TOTAL"
  /** A short filter label and the project name it stands for. */
  const BeGardenLabel: string := "BE GARDEN"
  const BeGardenProject: string := "BE GARDEN KAÁ SQUARE"

  const FirstColor: string := "#007c83"
  const OthersColor: string := "#9c9fae"

  /** `filter_by_empreendimento`. */
  function FilterByProject(rows: seq<Row>, project: string): (r: seq<Row>)
    ensures IsSubsequence(r, rows)
    ensures project == AllProjects ==> r == rows
    ensures project == BeGardenLabel ==>
              forall x :: multiset(r)[x] == if x.project == BeGardenProject then multiset(rows)[x] else 0
    ensures project != AllProjects && project != BeGardenLabel ==>
              forall x :: multiset(r)[x] == if x.project == project then multiset(rows)[x] else 0
  {
    if project == BeGardenLabel then
      var p := (x: Row) => x.project == BeGardenProject;
      FilterSpec(p, rows);
      Filter(p, rows)
    else if project != AllProjects then
      var p := (x: Row) => x.project == project;
      FilterSpec(p, rows);
      Filter(p, rows)
    else
      SubsequenceReflexive(rows);
      rows
  }

  /** One line of the ranking: an agent and the sum of their contract values. */
  datatype Entry = Entry(agent: string, total: int)

  function Agents(g: seq<Entry>): set<string> {
    set e | e in g :: e.agent
  }

  function RowAgents(rows: seq<Row>): set<string> {
    set r | r in rows :: r.agent
  }

  predicate DistinctAgents(g: seq<Entry>) {
    forall i, j | 0 <= i < j < |g| :: g[i].agent != g[j].agent
  }

  /** Reference definition: the sum of the contract values of `a`'s rows. */
  function AgentTotal(rows: seq<Row>, a: string): int {
    if rows == [] then 0
    else (if rows[0].agent == a then rows[0].contractValue else 0) + AgentTotal(rows[1..], a)
  }

  function SumTotals(g: seq<Entry>): int {
    if g == [] then 0 else g[0].total + SumTotals(g[1..])
  }

  /** The total listed for `a`, or 0 when `a` has no entry. */
  function TotalOf(g: seq<Entry>, a: string): int {
    if g == [] then 0 else if g[0].agent == a then g[0].total else TotalOf(g[1..], a)
  }

  /** Adds one row to the per-agent sums. */
  function AddTo(g: seq<Entry>, row: Row): seq<Entry> {
    if g == [] then [Entry(row.agent, row.contractValue)]
    else if g[0].agent == row.agent then [Entry(row.agent, g[0].total + row.contractValue)] + g[1..]
    else [g[0]] + AddTo(g[1..], row)
  }

  /** `df.groupby(['corretor'], as_index=False)['valor_contrato'].sum()`. */
  function Group(rows: seq<Row>): seq<Entry> {
    if rows == [] then [] else AddTo(Group(rows[1..]), rows[0])
  }

  lemma {:induction false} AddToAgentSet(g: seq<Entry>, row: Row)
    ensures Agents(AddTo(g, row)) == Agents(g) + {row.agent}
  {
    if g != [] {
      var r := AddTo(g, row);
      assert Agents(g) == {g[0].agent} + Agents(g[1..]);
      if g[0].agent == row.agent {
        assert r[1..] == g[1..];
        assert Agents(r) == {r[0].agent} + Agents(g[1..]);
      } else {
        AddToAgentSet(g[1..], row);
        assert r[1..] == AddTo(g[1..], row);
        assert Agents(r) == {g[0].agent} + Agents(r[1..]);
      }
    }
  }

  lemma {:induction false} AddToAgents(g: seq<Entry>, row: Row)
    requires DistinctAgents(g)
    ensures DistinctAgents(AddTo(g, row))
    ensures Agents(AddTo(g, row)) == Agents(g) + {row.agent}
  {
    AddToAgentSet(g, row);
    if g != [] {
      var r := AddTo(g, row);
      if g[0].agent == row.agent {
        assert r[1..] == g[1..];
      } else {
        AddToAgents(g[1..], row);
        AddToAgentSet(g[1..], row);
        assert r[1..] == AddTo(g[1..], row);
        assert g[0].agent !in Agents(g[1..]);
        forall j | 1 <= j < |r| ensures r[0].agent != r[j].agent {
          assert r[j].agent in Agents(r[1..]);
        }
      }
    }
  }

  lemma {:induction false} AddToTotals(g: seq<Entry>, row: Row, a: string)
    ensures TotalOf(AddTo(g, row), a) == TotalOf(g, a) + (if a == row.agent then row.contractValue else 0)
  {
    if g != [] && g[0].agent != row.agent {
      AddToTotals(g[1..], row, a);
    }
  }

  lemma {:induction false} AddToSum(g: seq<Entry>, row: Row)
    ensures SumTotals(AddTo(g, row)) == SumTotals(g) + row.contractValue
  {
    if g != [] && g[0].agent != row.agent {
      AddToSum(g[1..], row);
    }
  }

  lemma {:induction false} AgentTotalOfAbsent(rows: seq<Row>, a: string)
    requires a !in RowAgents(rows)
    ensures AgentTotal(rows, a) == 0
  {
    if rows != [] {
      assert RowAgents(rows[1..]) <= RowAgents(rows);
      AgentTotalOfAbsent(rows[1..], a);
    }
  }

  /**
   * The group-by has one entry per distinct agent of the rows, each holding
   * the sum of that agent's contract values, and the sums add up to the total
   * of all rows.
   */
  lemma {:induction false} GroupSpec(rows: seq<Row>)
    ensures DistinctAgents(Group(rows))
    ensures Agents(Group(rows)) == RowAgents(rows)
    ensures forall a :: TotalOf(Group(rows), a) == AgentTotal(rows, a)
    ensures SumTotals(Group(rows)) == TotalSales(rows)
  {
    if rows != [] {
      GroupSpec(rows[1..]);
      AddToAgents(Group(rows[1..]), rows[0]);
      AddToSum(Group(rows[1..]), rows[0]);
      forall a ensures TotalOf(Group(rows), a) == AgentTotal(rows, a) {
        AddToTotals(Group(rows[1..]), rows[0], a);
      }
      assert RowAgents(rows) == RowAgents(rows[1..]) + {rows[0].agent} by {
        assert rows == [rows[0]] + rows[1..];
      }
    }
  }

  lemma {:induction false} TotalOfAt(g: seq<Entry>, i: nat)
    requires DistinctAgents(g)
    requires i < |g|
    ensures TotalOf(g, g[i].agent) == g[i].total
  {
    if i > 0 {
      assert g[0].agent != g[i].agent;
      assert g[1..][i - 1] == g[i];
      TotalOfAt(g[1..], i - 1);
    }
  }

  predicate SortedByTotal(g: seq<Entry>) {
    forall i, j | 0 <= i < j < |g| :: g[i].total >= g[j].total
  }

  function Insert(e: Entry, s: seq<Entry>): seq<Entry> {
    if s == [] then [e]
    else if e.total >= s[0].total then [e] + s
    else [s[0]] + Insert(e, s[1..])
  }

  /**
   * `sort_values(by='valor_contrato', ascending=False)`. The library does not
   * promise an order among equal totals; this definition picks one, and the
   * properties proved about it hold of every order a sort may produce.
   */
  function SortByTotal(s: seq<Entry>): seq<Entry> {
    if s == [] then [] else Insert(s[0], SortByTotal(s[1..]))
  }

  lemma {:induction false} InsertPermutes(e: Entry, s: seq<Entry>)
    ensures multiset(Insert(e, s)) == multiset(s) + multiset{e}
  {
    if s != [] && e.total < s[0].total {
      InsertPermutes(e, s[1..]);
      assert s == [s[0]] + s[1..];
    }
  }

  lemma {:induction false} InsertSorted(e: Entry, s: seq<Entry>)
    requires SortedByTotal(s)
    ensures SortedByTotal(Insert(e, s))
  {
    if s != [] && e.total < s[0].total {
      var r := Insert(e, s);
      InsertSorted(e, s[1..]);
      InsertPermutes(e, s[1..]);
      assert r[1..] == Insert(e, s[1..]);
      assert s == [s[0]] + s[1..];
      forall j | 1 <= j < |r| ensures r[0].total >= r[j].total {
        assert r[j] in multiset(r[1..]);
      }
    }
  }

  lemma {:induction false} InsertKeepsSum(e: Entry, s: seq<Entry>)
    ensures SumTotals(Insert(e, s)) == e.total + SumTotals(s)
    ensures Agents(Insert(e, s)) == Agents(s) + {e.agent}
  {
    if s != [] {
      var r := Insert(e, s);
      assert Agents(s) == {s[0].agent} + Agents(s[1..]);
      if e.total >= s[0].total {
        assert r[1..] == s;
        assert Agents(r) == {e.agent} + Agents(s);
      } else {
        InsertKeepsSum(e, s[1..]);
        assert r[1..] == Insert(e, s[1..]);
        assert Agents(r) == {s[0].agent} + Agents(r[1..]);
      }
    }
  }

  lemma {:induction false} InsertDistinct(e: Entry, s: seq<Entry>)
    requires DistinctAgents(s) && e.agent !in Agents(s)
    ensures DistinctAgents(Insert(e, s))
  {
    if s != [] {
      var r := Insert(e, s);
      if e.total >= s[0].total {
        assert r[1..] == s;
        forall j | 1 <= j < |r| ensures r[0].agent != r[j].agent {
          assert r[j] in s;
        }
      } else {
        assert Agents(s) == {s[0].agent} + Agents(s[1..]);
        InsertDistinct(e, s[1..]);
        InsertPermutes(e, s[1..]);
        assert r[1..] == Insert(e, s[1..]);
        forall j | 1 <= j < |r| ensures r[0].agent != r[j].agent {
          assert r[j] in multiset(r[1..]);
          if r[j] != e {
            assert r[j] in s[1..];
          }
        }
      }
    }
  }

  lemma {:induction false} SortByTotalPermutes(s: seq<Entry>)
    ensures SortedByTotal(SortByTotal(s))
    ensures multiset(SortByTotal(s)) == multiset(s)
  {
    if s != [] {
      SortByTotalPermutes(s[1..]);
      InsertSorted(s[0], SortByTotal(s[1..]));
      InsertPermutes(s[0], SortByTotal(s[1..]));
      assert s == [s[0]] + s[1..];
    }
  }

  lemma {:induction false} SortByTotalKeepsAgents(s: seq<Entry>)
    ensures SumTotals(SortByTotal(s)) == SumTotals(s)
    ensures Agents(SortByTotal(s)) == Agents(s)
    ensures DistinctAgents(s) ==> DistinctAgents(SortByTotal(s))
  {
    if s != [] {
      SortByTotalKeepsAgents(s[1..]);
      InsertKeepsSum(s[0], SortByTotal(s[1..]));
      assert Agents(s) == {s[0].agent} + Agents(s[1..]);
      if DistinctAgents(s) {
        assert DistinctAgents(s[1..]);
        InsertDistinct(s[0], SortByTotal(s[1..]));
      }
    }
  }

  lemma {:induction false} DistinctAgentsCount(g: seq<Entry>)
    requires DistinctAgents(g)
    ensures |Agents(g)| == |g|
  {
    if g != [] {
      assert Agents(g) == {g[0].agent} + Agents(g[1..]);
      DistinctAgentsCount(g[1..]);
    }
  }

  /** Grouped and sorted, still under the raw agent names. */
  function RawRanking(rows: seq<Row>): seq<Entry> {
    SortByTotal(Group(rows))
  }

  /**
   * The ranking before display names are applied: one entry per distinct raw
   * agent name of the rows (so as many entries as there are agents), each
   * total the sum of that agent's contract values, totals non-increasing down
   * the list, and the totals summing to the total of the rows.
   */
  lemma RawRankingSpec(rows: seq<Row>)
    ensures DistinctAgents(RawRanking(rows))
    ensures Agents(RawRanking(rows)) == RowAgents(rows)
    ensures |RawRanking(rows)| == |RowAgents(rows)|
    ensures forall k | 0 <= k < |RawRanking(rows)| ::
              RawRanking(rows)[k].total == AgentTotal(rows, RawRanking(rows)[k].agent)
    ensures SortedByTotal(RawRanking(rows))
    ensures SumTotals(RawRanking(rows)) == TotalSales(rows)
  {
    var g := Group(rows);
    var r := RawRanking(rows);
    GroupSpec(rows);
    SortByTotalPermutes(g);
    SortByTotalKeepsAgents(g);
    DistinctAgentsCount(r);
    forall k | 0 <= k < |r| ensures r[k].total == AgentTotal(rows, r[k].agent) {
      assert r[k] in multiset(g);
      var i :| 0 <= i < |g| && g[i] == r[k];
      TotalOfAt(g, i);
    }
  }

  /** `ranking['corretor'].apply(processar_name)`. */
  function DisplayNames(raw: seq<Entry>): (r: seq<Entry>)
    ensures |r| == |raw|
  {
    seq(|raw|, k requires 0 <= k < |raw| => Entry(ProcessName(raw[k].agent), raw[k].total))
  }

  /** `[first_color] + [others_color] * (len(ranking) - 1)`; a negative
      repetition count gives an empty list, so an empty ranking still gets
      one colour. */
  function Colors(n: nat): (c: seq<string>)
    ensures |c| == if n == 0 then 1 else n
    ensures c[0] == FirstColor
    ensures forall k | 1 <= k < |c| :: c[k] == OthersColor
  {
    [FirstColor] + seq(if n == 0 then 0 else n - 1, _ => OthersColor)
  }

  /** What `prepare_data` returns: ranking, colours and the active filter. */
  datatype Prepared = Prepared(ranking: seq<Entry>, colors: seq<string>, project: string)

  /** `prepare_data`, with the session's filter passed in. */
  function PrepareData(rows: seq<Row>, project: string): Prepared {
    var raw := RawRanking(FilterByProject(rows, project));
    Prepared(DisplayNames(raw), Colors(|raw|), project)
  }

  /**
   * The displayed ranking has one entry per distinct raw agent name of the
   * selected rows, is sorted by total, highest first, and its totals add up
   * to the total of the selected rows; each display name is what
   * `processar_name` makes of the agent's raw name and is left alone by it.
   * The colour list starts with the highlight colour, continues with the
   * default colour, and is as long as the ranking, except that an empty
   * ranking still gets one colour.
   */
  lemma PrepareDataSpec(rows: seq<Row>, project: string)
    ensures var p := PrepareData(rows, project);
            var selected := FilterByProject(rows, project);
            && p.project == project
            && |p.ranking| == |RowAgents(selected)|
            && SortedByTotal(p.ranking)
            && SumTotals(p.ranking) == TotalSales(selected)
            && (forall k | 0 <= k < |p.ranking| ::
                  && p.ranking[k].agent == ProcessName(RawRanking(selected)[k].agent)
                  && p.ranking[k].total == AgentTotal(selected, RawRanking(selected)[k].agent)
                  && ProcessName(p.ranking[k].agent) == p.ranking[k].agent)
            && p.colors[0] == FirstColor
            && (forall k | 1 <= k < |p.colors| :: p.colors[k] == OthersColor)
            && |p.colors| == (if p.ranking == [] then 1 else |p.ranking|)
  {
    var selected := FilterByProject(rows, project);
    var raw := RawRanking(selected);
    var shown := DisplayNames(raw);
    RawRankingSpec(selected);
    forall k | 0 <= k < |shown| ensures ProcessName(shown[k].agent) == shown[k].agent {
      ProcessNameIdempotent(raw[k].agent);
    }
    SumTotalsOfDisplayNames(raw);
  }

  lemma {:induction false} SumTotalsOfDisplayNames(raw: seq<Entry>)
    ensures SumTotals(DisplayNames(raw)) == SumTotals(raw)
  {
    if raw != [] {
      assert DisplayNames(raw)[1..] == DisplayNames(raw[1..]);
      SumTotalsOfDisplayNames(raw[1..]);
    }
  }

  /** What `calcular_primeiro_lugar` reports: the leader's display name and the
      active filter, or nothing when the ranking is empty. */
  datatype Leader = Leader(name: string, project: string)

  function FirstPlace(rows: seq<Row>, project: string): Option<Leader> {
    var p := PrepareData(rows, project);
    if |p.ranking| > 0 then Some(Leader(p.ranking[0].agent, p.project)) else None
  }

  /**
   * There is a leader exactly when some row survives the project filter, and
   * the leader is the display name of an agent whose total is at least every
   * other agent's total among the selected rows.
   */
  lemma FirstPlaceSpec(rows: seq<Row>, project: string)
    ensures FirstPlace(rows, project).Some? <==> FilterByProject(rows, project) != []
    ensures FirstPlace(rows, project).Some? ==>
              var selected := FilterByProject(rows, project);
              && FirstPlace(rows, project).value.project == project
              && exists a ::
                   && a in RowAgents(selected)
                   && FirstPlace(rows, project).value.name == ProcessName(a)
                   && forall b | b in RowAgents(selected) :: AgentTotal(selected, b) <= AgentTotal(selected, a)
  {
    var selected := FilterByProject(rows, project);
    var raw := RawRanking(selected);
    RawRankingSpec(selected);
    if selected != [] {
      assert selected[0].agent in RowAgents(selected);
    }
    if raw != [] {
      var a := raw[0].agent;
      assert a in Agents(raw);
      forall b | b in RowAgents(selected) ensures AgentTotal(selected, b) <= AgentTotal(selected, a) {
        var k :| 0 <= k < |raw| && raw[k].agent == b;
      }
    }
  }
}
