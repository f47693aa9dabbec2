/**
 * `database.py`: `push_csv_to_sqlite` copies the two CSV files into the
 * `claim_list` and `claim_detail` tables of a SQLite file, one
 * `INSERT OR REPLACE` per row, and commits once at the end. The tables are
 * created when absent and never cleared. Any exception skips the commit, so
 * nothing the run wrote persists.
 */
module Sqlite {
  import opened Wrappers
  import opened Text
  import opened Values
  import opened Bulk
  import opened Models
  import Ingest

  /** A row of `claim_list`; the text columns hold what the file held, `None` standing for `NULL`. */
  datatype SqlClaim = SqlClaim(id: int, patientName: Option<string>, billedAmount: Option<Decimal>, paidAmount: Option<Decimal>,
                               status: Option<string>, insurerName: Option<string>, dischargeDate: Option<string>)

  /** A row of `claim_detail`. */
  datatype SqlDetail = SqlDetail(id: int, claimId: int, denialReason: Option<string>, cptCodes: Option<string>)

  function SqlClaimKey(c: SqlClaim): int { c.id }
  function SqlDetailKey(d: SqlDetail): int { d.id }

  /** Why the run stopped before the commit. */
  datatype PushError = ClaimFileError | ClaimRowError(claimRow: nat) | DetailFileError | DetailRowError(detailRow: nat)

  /** `float(row[key]) if row[key] else None`: `None` when `float` raises, `Some(None)` for a blank field. */
  function AmountOf(row: Row, key: string): (r: Option<Option<Decimal>>)
    ensures r == Some(None) <==> Blank(row, key)
    ensures r.None? <==> !Blank(row, key) && ParseDecimal(row[key]).None?
    ensures r.Some? && r.value.Some? ==> ParseDecimal(row[key]) == r.value
  {
    if Blank(row, key) then Some(None)
    else
      match ParseDecimal(row[key])
      case None => None
      case Some(d) => Some(Some(d))
  }

  /** The parameters of one `INSERT OR REPLACE INTO claim_list`; `None` when computing them raises. */
  function ClaimFromCsv(row: Row): (r: Option<SqlClaim>)
    ensures r.None? <==> IdOf(row, "id").None? || AmountOf(row, "billed_amount").None? || AmountOf(row, "paid_amount").None?
    ensures r.Some? ==> Some(r.value.id) == IdOf(row, "id")
    ensures r.Some? ==> Blank(row, "billed_amount") == r.value.billedAmount.None?
    ensures r.Some? ==> Blank(row, "paid_amount") == r.value.paidAmount.None?
    ensures r.Some? && !Blank(row, "billed_amount") ==> r.value.billedAmount == ParseDecimal(row["billed_amount"])
    ensures r.Some? && !Blank(row, "paid_amount") ==> r.value.paidAmount == ParseDecimal(row["paid_amount"])
    ensures r.Some? ==> r.value.patientName == Field(row, "patient_name") && r.value.status == Field(row, "status")
    ensures r.Some? ==> r.value.insurerName == Field(row, "insurer_name") && r.value.dischargeDate == Field(row, "discharge_date")
  {
    match (IdOf(row, "id"), AmountOf(row, "billed_amount"), AmountOf(row, "paid_amount"))
    case (Some(id), Some(billed), Some(paid)) =>
      Some(SqlClaim(id, Field(row, "patient_name"), billed, paid, Field(row, "status"),
                    Field(row, "insurer_name"), Field(row, "discharge_date")))
    case _ => None
  }

  /** The parameters of one `INSERT OR REPLACE INTO claim_detail`. */
  function DetailFromCsv(row: Row): (r: Option<SqlDetail>)
    ensures r.None? <==> IdOf(row, "id").None? || IdOf(row, "claim_id").None?
    ensures r.Some? ==> Some(r.value.id) == IdOf(row, "id") && Some(r.value.claimId) == IdOf(row, "claim_id")
    ensures r.Some? ==> r.value.denialReason == Field(row, "denial_reason") && r.value.cptCodes == Field(row, "cpt_codes")
  {
    match (IdOf(row, "id"), IdOf(row, "claim_id"))
    case (Some(id), Some(claimId)) => Some(SqlDetail(id, claimId, Field(row, "denial_reason"), Field(row, "cpt_codes")))
    case _ => None
  }

  /** The claim-list part of the run on the uncommitted table; a missing file leaves it alone. */
  function PushClaims(table: map<int, SqlClaim>, input: CsvInput): Result<map<int, SqlClaim>, PushError>
  {
    match input
    case Missing => Ok(table)
    case Unreadable => Err(ClaimFileError)
    case Present(rows) =>
      match Ingest.ParseAll(rows, ClaimFromCsv)
      case Err(i) => Err(ClaimRowError(i))
      case Ok(objs) => Ok(Upsert(table, objs, SqlClaimKey))
  }

  function PushDetails(table: map<int, SqlDetail>, input: CsvInput): Result<map<int, SqlDetail>, PushError>
  {
    match input
    case Missing => Ok(table)
    case Unreadable => Err(DetailFileError)
    case Present(rows) =>
      match Ingest.ParseAll(rows, DetailFromCsv)
      case Err(i) => Err(DetailRowError(i))
      case Ok(objs) => Ok(Upsert(table, objs, SqlDetailKey))
  }

  /** The two tables after the commit, or the reason the run stopped. */
  function Push(list: map<int, SqlClaim>, detail: map<int, SqlDetail>, claimsIn: CsvInput, detailsIn: CsvInput)
    : Result<(map<int, SqlClaim>, map<int, SqlDetail>), PushError>
  {
    match PushClaims(list, claimsIn)
    case Err(e) => Err(e)
    case Ok(l) =>
      match PushDetails(detail, detailsIn)
      case Err(e) => Err(e)
      case Ok(d) => Ok((l, d))
  }

  /** The tables as the file holds them afterwards: without a commit, as they were. */
  function Stored(list: map<int, SqlClaim>, detail: map<int, SqlDetail>, claimsIn: CsvInput, detailsIn: CsvInput)
    : (map<int, SqlClaim>, map<int, SqlDetail>)
  {
    match Push(list, detail, claimsIn, detailsIn)
    case Ok(t) => t
    case Err(_) => (list, detail)
  }

  /** The ids of the file's claim rows. */
  function CsvIds(objs: seq<SqlClaim>): set<int>
  {
    KeysOf(objs, SqlClaimKey)
  }

  /**
   * After a run that commits, each claim id of the file holds the record
   * of its last row, and every other id keeps what it had: the table is
   * never cleared.
   */
  lemma {:induction false} LastRowWins(list: map<int, SqlClaim>, detail: map<int, SqlDetail>, rows: seq<Row>, detailsIn: CsvInput, k: int)
    requires Push(list, detail, Present(rows), detailsIn).Ok?
    ensures var objs := Ingest.ParseAll(rows, ClaimFromCsv).value;
      var stored := Stored(list, detail, Present(rows), detailsIn).0;
      stored.Keys == list.Keys + CsvIds(objs)
      && (k in CsvIds(objs) ==> stored[k] == objs[LastIndex(objs, SqlClaimKey, k)])
      && (k in list && k !in CsvIds(objs) ==> stored[k] == list[k])
  {
    var objs := Ingest.ParseAll(rows, ClaimFromCsv).value;
    if k in CsvIds(objs) {
      UpsertLastWins(list, objs, SqlClaimKey, k);
    }
  }

  /** The same rule for the detail table. */
  lemma {:induction false} LastDetailRowWins(list: map<int, SqlClaim>, detail: map<int, SqlDetail>, claimsIn: CsvInput, rows: seq<Row>, k: int)
    requires Push(list, detail, claimsIn, Present(rows)).Ok?
    ensures var objs := Ingest.ParseAll(rows, DetailFromCsv).value;
      var stored := Stored(list, detail, claimsIn, Present(rows)).1;
      stored.Keys == detail.Keys + KeysOf(objs, SqlDetailKey)
      && (k in KeysOf(objs, SqlDetailKey) ==> stored[k] == objs[LastIndex(objs, SqlDetailKey, k)])
      && (k in detail && k !in KeysOf(objs, SqlDetailKey) ==> stored[k] == detail[k])
  {
    var objs := Ingest.ParseAll(rows, DetailFromCsv).value;
    if k in KeysOf(objs, SqlDetailKey) {
      UpsertLastWins(detail, objs, SqlDetailKey, k);
    }
  }

  /** A missing file leaves its table exactly as it was. */
  lemma MissingFilesTouchNothing(list: map<int, SqlClaim>, detail: map<int, SqlDetail>, claimsIn: CsvInput)
    ensures Push(list, detail, Missing, Missing) == Ok((list, detail))
    ensures Push(list, detail, claimsIn, Missing).Ok? ==> Stored(list, detail, claimsIn, Missing).1 == detail
  {
  }

  /** One claim row with an id that is not an integer stops the run before the commit: both tables keep what they had. */
  lemma {:induction false} BadIdKeepsEverything(list: map<int, SqlClaim>, detail: map<int, SqlDetail>, rows: seq<Row>, detailsIn: CsvInput, i: nat)
    requires i < |rows| && IdOf(rows[i], "id").None?
    ensures Push(list, detail, Present(rows), detailsIn).Err?
    ensures Stored(list, detail, Present(rows), detailsIn) == (list, detail)
  {
    Ingest.ParseAllIsAdmitted(rows, ClaimFromCsv);
  }

  /** So does one detail row whose `claim_id` is not an integer, even after every claim row went in. */
  lemma {:induction false} BadClaimIdKeepsEverything(list: map<int, SqlClaim>, detail: map<int, SqlDetail>, claimsIn: CsvInput, rows: seq<Row>, i: nat)
    requires i < |rows| && IdOf(rows[i], "claim_id").None?
    ensures Push(list, detail, claimsIn, Present(rows)).Err?
    ensures Stored(list, detail, claimsIn, Present(rows)) == (list, detail)
  {
    Ingest.ParseAllIsAdmitted(rows, DetailFromCsv);
  }

  /** The SQLite file: its two tables. */
  class SqliteDatabase {
    var claimList: map<int, SqlClaim>
    var claimDetail: map<int, SqlDetail>

    /** A file with both tables freshly created by `CREATE TABLE IF NOT EXISTS`. */
    constructor ()
      ensures claimList == map[] && claimDetail == map[]
    {
      claimList := map[];
      claimDetail := map[];
    }

    /** The `INSERT OR REPLACE` loop over one file's rows, on the uncommitted copy of a table. */
    static method InsertClaims(table: map<int, SqlClaim>, rows: seq<Row>) returns (r: Result<map<int, SqlClaim>, nat>)
      ensures r.Ok? <==> Ingest.ParseAll(rows, ClaimFromCsv).Ok?
      ensures r.Ok? ==> r.value == Upsert(table, Ingest.ParseAll(rows, ClaimFromCsv).value, SqlClaimKey)
      ensures r.Err? ==> Ingest.ParseAll(rows, ClaimFromCsv) == Err(r.error)
    {
      var pending := table;
      ghost var objs: seq<SqlClaim> := [];
      var i := 0;
      while i < |rows|
        invariant 0 <= i <= |rows|
        invariant Ingest.ParseAll(rows[..i], ClaimFromCsv) == Ok(objs)
        invariant pending == Upsert(table, objs, SqlClaimKey)
      {
        var c := ClaimFromCsv(rows[i]);
        if c.None? {
          Ingest.ParseAllStopsAtError(rows, ClaimFromCsv, i);
          return Err(i);
        }
        pending := pending[c.value.id := c.value];
        UpsertSnoc(table, objs, c.value, SqlClaimKey);
        Ingest.ParseAllSnoc(rows, ClaimFromCsv, i, objs);
        objs := objs + [c.value];
        i := i + 1;
      }
      assert rows[..|rows|] == rows;
      r := Ok(pending);
    }

    static method InsertDetails(table: map<int, SqlDetail>, rows: seq<Row>) returns (r: Result<map<int, SqlDetail>, nat>)
      ensures r.Ok? <==> Ingest.ParseAll(rows, DetailFromCsv).Ok?
      ensures r.Ok? ==> r.value == Upsert(table, Ingest.ParseAll(rows, DetailFromCsv).value, SqlDetailKey)
      ensures r.Err? ==> Ingest.ParseAll(rows, DetailFromCsv) == Err(r.error)
    {
      var pending := table;
      ghost var objs: seq<SqlDetail> := [];
      var i := 0;
      while i < |rows|
        invariant 0 <= i <= |rows|
        invariant Ingest.ParseAll(rows[..i], DetailFromCsv) == Ok(objs)
        invariant pending == Upsert(table, objs, SqlDetailKey)
      {
        var d := DetailFromCsv(rows[i]);
        if d.None? {
          Ingest.ParseAllStopsAtError(rows, DetailFromCsv, i);
          return Err(i);
        }
        pending := pending[d.value.id := d.value];
        UpsertSnoc(table, objs, d.value, SqlDetailKey);
        Ingest.ParseAllSnoc(rows, DetailFromCsv, i, objs);
        objs := objs + [d.value];
        i := i + 1;
      }
      assert rows[..|rows|] == rows;
      r := Ok(pending);
    }

    /** `push_csv_to_sqlite`: prints the error instead of raising; `ok` says whether it committed. */
    method PushCsvToSqlite(claimsIn: CsvInput, detailsIn: CsvInput) returns (ok: bool)
      modifies this
      ensures ok <==> Push(old(claimList), old(claimDetail), claimsIn, detailsIn).Ok?
      ensures (claimList, claimDetail) == Stored(old(claimList), old(claimDetail), claimsIn, detailsIn)
    {
      var list := claimList;
      var detail := claimDetail;
      match claimsIn {
        case Missing =>
        case Unreadable =>
          return false;
        case Present(rows) =>
          var r := InsertClaims(list, rows);
          if r.Err? {
            return false;
          }
          list := r.value;
      }
      match detailsIn {
        case Missing =>
        case Unreadable =>
          return false;
        case Present(rows) =>
          var r := InsertDetails(detail, rows);
          if r.Err? {
            return false;
          }
          detail := r.value;
      }
      claimList, claimDetail := list, detail;
      ok := true;
    }
  }
}
