/**
 * Record extraction (`process_data`): the API payload maps a reservation key
 * to a nested record; each record becomes one flat row, except those of the
 * one excluded agent. Also the sale-date cut-off and the sales total that
 * `main` and `exibir_graficos` apply to the rows.
 */
module Records {
  import opened Wrappers
  import opened Seqs

  /** The agent whose reservations are skipped. */
  const ExcludedAgent: string := "Evandro Rodrigues da Silva"

  /** Day number of 2022-01-01 in the proleptic Gregorian calendar counting
      0001-01-01 as day 1; only sales strictly after it are kept. */
  const CutoffDay: int := 738156

  /** Money is counted in cents. */
  const CentsPerReal: int := 100

  /** The nested objects of one payload entry; a field the payload lacks is
      `None`. Money is in cents and dates are day numbers. */
  datatype RawAgent = RawAgent(name: Option<string>, id: Option<int>, agency: Option<string>)
  datatype RawUnit = RawUnit(project: Option<string>)
  datatype RawTerms = RawTerms(contractValue: Option<int>)
  datatype RawReservation = RawReservation(
    agent: Option<RawAgent>,        // value["corretor"]
    unit: Option<RawUnit>,          // value["unidade"]
    terms: Option<RawTerms>,        // value["condicoes"]
    saleDate: Option<int>)          // value["data_venda"]

  /** A lookup of a missing key raises `KeyError(key)`. */
  datatype KeyError = KeyError(key: string)

  /** One row of the DataFrame `process_data` builds. */
  datatype Row = Row(
    reservation: string,   // 'reserva'
    project: string,       // 'empreendimento'
    agent: string,         // 'corretor'
    agentId: int,          // 'id_corretor'
    agency: string,        // 'imobiliaria'
    contractValue: int,    // 'valor_contrato'
    saleDate: int)         // 'data_venda'

  /** The payload: reservation key and record, in the dictionary's order. */
  type Payload = seq<(string, RawReservation)>

  /** `value["corretor"]["corretor"]`, when both keys are present. */
  function AgentName(rec: RawReservation): Option<string> {
    if rec.agent.Some? && rec.agent.value.name.Some? then Some(rec.agent.value.name.value) else None
  }

  predicate IsExcluded(rec: RawReservation) {
    AgentName(rec) == Some(ExcludedAgent)
  }

  /** Every field `process_data` reads is present. */
  predicate Complete(rec: RawReservation) {
    && rec.agent.Some?
    && rec.agent.value.name.Some?
    && rec.agent.value.id.Some?
    && rec.agent.value.agency.Some?
    && rec.unit.Some?
    && rec.unit.value.project.Some?
    && rec.terms.Some?
    && rec.terms.value.contractValue.Some?
    && rec.saleDate.Some?
  }

  /**
   * One iteration of the loop of `process_data`: the keys are read in the
   * order the code reads them, the first missing one raises, and the excluded
   * agent is skipped (`Success(None)`) before anything after the agent's name
   * is read.
   */
  function RowOf(key: string, rec: RawReservation): (r: Result<Option<Row>, KeyError>)
    ensures r == Success(None) <==> IsExcluded(rec)
    ensures r.Failure? <==> !IsExcluded(rec) && !Complete(rec)
    ensures r.Success? && r.value.Some? ==>
              && Complete(rec)
              && r.value.value.reservation == key
              && r.value.value.agent == rec.agent.value.name.value
              && r.value.value.agent != ExcludedAgent
              && r.value.value.agentId == rec.agent.value.id.value
              && r.value.value.agency == rec.agent.value.agency.value
              && r.value.value.project == rec.unit.value.project.value
              && r.value.value.contractValue == rec.terms.value.contractValue.value
              && r.value.value.saleDate == rec.saleDate.value
  {
    if rec.agent.None? then Failure(KeyError("corretor"))
    else if rec.agent.value.name.None? then Failure(KeyError("corretor"))
    else if rec.agent.value.name.value == ExcludedAgent then Success(None)
    else if rec.agent.value.id.None? then Failure(KeyError("idcorretor_cv"))
    else if rec.unit.None? then Failure(KeyError("unidade"))
    else if rec.unit.value.project.None? then Failure(KeyError("empreendimento"))
    else if rec.agent.value.agency.None? then Failure(KeyError("imobiliaria"))
    else if rec.terms.None? then Failure(KeyError("condicoes"))
    else if rec.terms.value.contractValue.None? then Failure(KeyError("valor_contrato"))
    else if rec.saleDate.None? then Failure(KeyError("data_venda"))
    else Success(Some(Row(
      key,
      rec.unit.value.project.value,
      rec.agent.value.name.value,
      rec.agent.value.id.value,
      rec.agent.value.agency.value,
      rec.terms.value.contractValue.value,
      rec.saleDate.value)))
  }

  function Prepend(rows: seq<Row>, rest: Result<seq<Row>, KeyError>): Result<seq<Row>, KeyError> {
    match rest
    case Success(more) => Success(rows + more)
    case Failure(e) => Failure(e)
  }

  /** What `process_data` produces: the rows, or the error of the first entry
      that lacks a key. */
  function Extract(data: Payload): Result<seq<Row>, KeyError> {
    if data == [] then Success([])
    else
      match RowOf(data[0].0, data[0].1)
      case Failure(e) => Failure(e)
      case Success(None) => Extract(data[1..])
      case Success(Some(row)) => Prepend([row], Extract(data[1..]))
  }

  /** `process_data`: walks the payload and appends one row per entry. */
  method ProcessData(data: Payload) returns (r: Result<seq<Row>, KeyError>)
    ensures r == Extract(data)
  {
    var rows: seq<Row> := [];
    var i := 0;
    assert data[0..] == data;
    match Extract(data) {
      case Success(more) => assert [] + more == more;
      case Failure(_) =>
    }
    while i < |data|
      invariant 0 <= i <= |data|
      invariant Extract(data) == Prepend(rows, Extract(data[i..]))
    {
      var (key, value) := data[i];
      assert data[i..][1..] == data[i + 1..];
      var outcome := RowOf(key, value);
      match outcome {
        case Failure(e) =>
          return Failure(e);
        case Success(None) =>
        case Success(Some(row)) =>
          assert rows + ([row] + []) == rows + [row];
          match Extract(data[i + 1..]) {
            case Success(more) => assert rows + ([row] + more) == (rows + [row]) + more;
            case Failure(_) =>
          }
          rows := rows + [row];
      }
      i := i + 1;
    }
    assert data[i..] == [];
    assert rows + [] == rows;
    return Success(rows);
  }

  /** The entries `process_data` turns into rows: all but the excluded agent's. */
  function Kept(data: Payload): seq<(string, RawReservation)> {
    Filter((e: (string, RawReservation)) => !IsExcluded(e.1), data)
  }

  lemma {:induction false} ExtractSucceeds(data: Payload)
    ensures Extract(data).Success? <==> forall k | 0 <= k < |data| :: RowOf(data[k].0, data[k].1).Success?
  {
    if data != [] {
      ExtractSucceeds(data[1..]);
      assert forall k | 1 <= k < |data| :: data[k] == data[1..][k - 1];
    }
  }

  lemma {:induction false} ExtractFirstError(data: Payload)
    requires Extract(data).Failure?
    ensures exists k | 0 <= k < |data| ::
              && RowOf(data[k].0, data[k].1) == Failure(Extract(data).error)
              && forall j | 0 <= j < k :: RowOf(data[j].0, data[j].1).Success?
  {
    var head := RowOf(data[0].0, data[0].1);
    if head.Failure? {
      assert RowOf(data[0].0, data[0].1) == Failure(Extract(data).error);
    } else {
      var rest := data[1..];
      ExtractFirstError(rest);
      var k :| && 0 <= k < |rest|
               && RowOf(rest[k].0, rest[k].1) == Failure(Extract(rest).error)
               && forall j | 0 <= j < k :: RowOf(rest[j].0, rest[j].1).Success?;
      assert data[k + 1] == rest[k];
      assert forall j | 1 <= j < k + 1 :: data[j] == rest[j - 1];
      assert RowOf(data[k + 1].0, data[k + 1].1) == Failure(Extract(data).error);
    }
  }

  lemma {:induction false} ExtractRows(data: Payload)
    requires Extract(data).Success?
    ensures var rows := Extract(data).value;
            && |rows| == |Kept(data)|
            && forall k | 0 <= k < |rows| :: RowOf(Kept(data)[k].0, Kept(data)[k].1) == Success(Some(rows[k]))
  {
    if data != [] {
      ExtractRows(data[1..]);
      assert Kept(data) == (if IsExcluded(data[0].1) then [] else [data[0]]) + Kept(data[1..]);
    }
  }

  /**
   * Extraction is all or nothing. It succeeds exactly when no entry lacks a key
   * (the excluded agent's entries are never inspected past the name), and
   * otherwise fails with the error of the first entry that does. On success
   * the rows are one per kept entry, in payload order, each with `reserva`
   * equal to that entry's key, and none belongs to the excluded agent.
   */
  lemma ExtractSpec(data: Payload)
    ensures Extract(data).Success? <==> forall k | 0 <= k < |data| :: RowOf(data[k].0, data[k].1).Success?
    ensures Extract(data).Failure? ==>
              exists k | 0 <= k < |data| ::
                && RowOf(data[k].0, data[k].1) == Failure(Extract(data).error)
                && forall j | 0 <= j < k :: RowOf(data[j].0, data[j].1).Success?
    ensures Extract(data).Success? ==>
              var rows := Extract(data).value;
              && |rows| == |Kept(data)|
              && (forall k | 0 <= k < |rows| ::
                    && RowOf(Kept(data)[k].0, Kept(data)[k].1) == Success(Some(rows[k]))
                    && rows[k].reservation == Kept(data)[k].0)
              && (forall k | 0 <= k < |rows| :: rows[k].agent != ExcludedAgent)
  {
    ExtractSucceeds(data);
    if Extract(data).Failure? {
      ExtractFirstError(data);
    } else {
      ExtractRows(data);
    }
  }

  /** `.query('data_venda > "2022-01-01"')`. */
  predicate SoldAfterCutoff(row: Row) {
    row.saleDate > CutoffDay
  }

  function SinceCutoff(rows: seq<Row>): seq<Row> {
    Filter(SoldAfterCutoff, rows)
  }

  /** The cut-off keeps exactly the rows sold after 2022-01-01, each as often
      as it occurs, in order. */
  lemma SinceCutoffSpec(rows: seq<Row>)
    ensures IsSubsequence(SinceCutoff(rows), rows)
    ensures forall x :: multiset(SinceCutoff(rows))[x] == if x.saleDate > CutoffDay then multiset(rows)[x] else 0
  {
    FilterSpec(SoldAfterCutoff, rows);
  }

  /** A sale made on the cut-off day or earlier changes nothing downstream,
      wherever it appears among the rows. */
  lemma SinceCutoffIgnoresEarlySale(rows: seq<Row>, early: Row, i: nat)
    requires i <= |rows|
    requires early.saleDate <= CutoffDay
    ensures SinceCutoff(rows[..i] + [early] + rows[i..]) == SinceCutoff(rows)
  {
    var a, b := rows[..i], rows[i..];
    FilterAppend(SoldAfterCutoff, a + [early], b);
    FilterAppend(SoldAfterCutoff, a, [early]);
    FilterAppend(SoldAfterCutoff, a, b);
    assert Filter(SoldAfterCutoff, [early]) == [];
    assert a + b == rows;
  }

  /** `df['valor_contrato'].sum()`. */
  function TotalSales(rows: seq<Row>): int {
    if rows == [] then 0 else rows[0].contractValue + TotalSales(rows[1..])
  }
}
