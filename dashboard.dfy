/** The data path of `main`: the fetched payload, when there is one, is
    flattened and cut to the sales after 2022-01-01 before any ranking. */
module Dashboard {
  import opened Wrappers
  import opened Seqs
  import opened Records
  import opened Ranking

  /** `main` shows the failure message (`NoData`), propagates a missing key
      (`Raised`), or goes on with the rows (`Loaded`). */
  datatype Loaded = NoData | Raised(error: KeyError) | Loaded(rows: seq<Row>)

  /** `fetched` is what the fetch returned: `None` for a non-200 response. An
      empty payload is falsy in `if data_reserva:` and fails as well. */
  function LoadRows(fetched: Option<Payload>): Loaded {
    if fetched.None? || fetched.value == [] then NoData
    else
      match Extract(fetched.value)
      case Failure(e) => Raised(e)
      case Success(rows) => Loaded(SinceCutoff(rows))
  }

  lemma ExtractedRowsNotExcluded(data: Payload)
    requires Extract(data).Success?
    ensures forall x | x in Extract(data).value :: x.agent != ExcludedAgent
  {
    ExtractSpec(data);
  }

  lemma SelectedRowsFromRows(rows: seq<Row>, project: string)
    ensures forall x | x in FilterByProject(rows, project) :: x in rows
  {
    forall x | x in FilterByProject(rows, project) ensures x in rows {
      assert multiset(FilterByProject(rows, project))[x] > 0;
    }
  }

  lemma CutRowsFromRows(rows: seq<Row>)
    ensures forall x | x in SinceCutoff(rows) :: x in rows && x.saleDate > CutoffDay
  {
    SinceCutoffSpec(rows);
    forall x | x in SinceCutoff(rows) ensures x in rows && x.saleDate > CutoffDay {
      assert multiset(SinceCutoff(rows))[x] > 0;
    }
  }

  /**
   * Every row behind any ranking the dashboard shows was sold after the
   * cut-off and belongs to someone other than the excluded agent, so that
   * agent never has an entry in a ranking.
   */
  lemma RankedRowsSpec(fetched: Option<Payload>, project: string)
    requires LoadRows(fetched).Loaded?
    ensures var selected := FilterByProject(LoadRows(fetched).rows, project);
            && (forall k | 0 <= k < |selected| :: selected[k].saleDate > CutoffDay && selected[k].agent != ExcludedAgent)
            && ExcludedAgent !in Agents(RawRanking(selected))
  {
    var extracted := Extract(fetched.value).value;
    var rows := LoadRows(fetched).rows;
    var selected := FilterByProject(rows, project);
    ExtractedRowsNotExcluded(fetched.value);
    CutRowsFromRows(extracted);
    SelectedRowsFromRows(rows, project);
    RawRankingSpec(selected);
    assert forall k | 0 <= k < |selected| :: selected[k] in rows;
  }
}
