/**
 * The branch-list endpoint (`getBranches`): it maps the rows of the branch
 * query to branch records and wraps them in a response body, or, when the
 * query fails, answers with a fixed list of nine mock branches. Both bodies
 * are sent with HTTP 200 and `success: true`.
 *
 * The query itself is abstracted to its outcome: the rows it returned, or
 * a failure.
 */
module BranchService {
  import opened Wrappers

  /** One row of the branch table, with the columns the query selects. */
  datatype Row = Row(
    branchCode: string,
    branchNameTh: string,
    coordinates: string,
    province: string,
    region: string,
    district: string,
    branchStatus: string)

  /**
   * A branch record in a response body. Records mapped from rows carry
   * the descriptive fields and no `value`; the mock records carry a
   * `value` slug and no descriptive fields.
   */
  datatype Record = Record(
    code: string,
    text: string,
    value: Option<string>,
    coordinates: Option<string>,
    province: Option<string>,
    region: Option<string>,
    district: Option<string>,
    branchStatus: Option<string>)

  /** What the branch query produced. */
  datatype QueryOutcome = Rows(rows: seq<Row>) | QueryFailed

  /** The JSON body of the response; `note` is present only on the mock path. */
  datatype Body = Body(success: bool, data: seq<Record>, count: int, note: Option<string>)

  /** The `LIMIT` of the branch query. */
  const QueryLimit: nat := 10

  const MockNote: string := "Using mock data - BigQuery not configured yet"

  /** The query never returns more rows than its `LIMIT`. */
  predicate WithinLimit(outcome: QueryOutcome) {
    outcome.Rows? ==> |outcome.rows| <= QueryLimit
  }

  function MockRecord(value: string, text: string, code: string): Record {
    Record(code, text, Some(value), None, None, None, None, None)
  }

  /** The records sent when the query fails. */
  const MockBranches: seq<Record> := [
    MockRecord("bkk-silom", "กรุงเทพฯ - สีลม", "BKK01"),
    MockRecord("bkk-sukhumvit", "กรุงเทพฯ - สุขุมวิท", "BKK02"),
    MockRecord("bkk-ratchada", "กรุงเทพฯ - รัชดา", "BKK03"),
    MockRecord("chiangmai", "เชียงใหม่", "CNX01"),
    MockRecord("phuket", "ภูเก็ต", "PKT01"),
    MockRecord("chonburi", "ชลบุรี", "CHB01"),
    MockRecord("khonkaen", "ขอนแก่น", "KHN01"),
    MockRecord("songkhla", "สงขลา", "SKA01"),
    MockRecord("nakhonratchasima", "นครราชสีมา", "NMA01")
  ]

  function ToRecord(row: Row): Record {
    Record(row.branchCode, row.branchNameTh, None, Some(row.coordinates), Some(row.province),
           Some(row.region), Some(row.district), Some(row.branchStatus))
  }

  /**
   * `rows.map(...)`: one record per row, in order, with the code and the
   * display text taken from `branch_code` and `branchname_th` and every
   * other column copied unchanged.
   */
  function MapRows(rows: seq<Row>): (records: seq<Record>)
    ensures |records| == |rows|
    ensures forall i :: 0 <= i < |rows| ==>
              && records[i].code == rows[i].branchCode
              && records[i].text == rows[i].branchNameTh
              && records[i].value == None
              && records[i].coordinates == Some(rows[i].coordinates)
              && records[i].province == Some(rows[i].province)
              && records[i].region == Some(rows[i].region)
              && records[i].district == Some(rows[i].district)
              && records[i].branchStatus == Some(rows[i].branchStatus)
  {
    if rows == [] then [] else [ToRecord(rows[0])] + MapRows(rows[1..])
  }

  /** The body sent when the query succeeds: no `note`, and `count` is the number of records. */
  function SuccessBody(rows: seq<Row>): (body: Body)
    ensures body.success && body.note == None
    ensures body.count == |body.data| == |rows|
    ensures body.data == MapRows(rows)
  {
    var branches := MapRows(rows);
    Body(true, branches, |branches|, None)
  }

  /** The body sent when the query fails: the mock list, its length, and a `note`. */
  function MockBody(): (body: Body)
    ensures body.success && body.note == Some(MockNote)
    ensures body.count == |body.data| == 9
    ensures body.data == MockBranches
  {
    Body(true, MockBranches, |MockBranches|, Some(MockNote))
  }

  /** The `getBranches` handler: the body it sends for a query outcome. */
  function GetBranches(outcome: QueryOutcome): (body: Body)
    requires WithinLimit(outcome)
    ensures body.success
    ensures body.count == |body.data|
    ensures outcome.Rows? ==> body.note == None && |body.data| == |outcome.rows| <= QueryLimit
    ensures outcome.Rows? ==> body.data == MapRows(outcome.rows)
    ensures outcome.QueryFailed? ==> body.data == MockBranches && body.note == Some(MockNote)
    ensures body.note.Some? <==> outcome.QueryFailed?
  {
    match outcome
    case Rows(rows) => SuccessBody(rows)
    case QueryFailed => MockBody()
  }

  /** The mock codes are pairwise distinct, and so are the mock values. */
  lemma MockCodesDistinct()
    ensures forall i, j :: 0 <= i < j < |MockBranches| ==> MockBranches[i].code != MockBranches[j].code
    ensures forall i, j :: 0 <= i < j < |MockBranches| ==> MockBranches[i].value != MockBranches[j].value
  {
  }
}
