/**
 * The backend's `load_claims_data` command: each table is emptied, then
 * filled from its CSV file if there is one. A row that raises is skipped
 * (with a warning for the first five), the rest are bulk-inserted with
 * conflicts ignored. Nothing runs in a transaction, and `handle` reports an
 * error instead of raising it.
 */
module BackendLoad {
  import opened Wrappers
  import opened Text
  import opened Values
  import opened Bulk
  import opened Models
  import Ingest

  /** Skipped rows with an index below this get a warning. */
  const WarnLimit := 5

  /** `int(row.get(key) or 0)`: a blank field reads as 0, text that is not an integer raises. */
  function IdOrZero(row: Row, key: string): Option<int>
  {
    if Blank(row, key) then Some(0) else ParseInt(row[key])
  }

  /** An amount column: blank is null, and so is text `Decimal` rejects. */
  function LenientAmount(row: Row, key: string): Option<Decimal>
  {
    if Blank(row, key) then None else ParseDecimal(row[key])
  }

  /** The discharge date: blank, or anything `strptime(.., '%Y-%m-%d')` rejects, is null. */
  function LenientDate(row: Row, key: string): DischargeDate
  {
    if Blank(row, key) then NoDate
    else
      match ParseIsoDate(row[key])
      case Some(d) => OnDate(d)
      case None => NoDate
  }

  /** The body of the row loop of `load_claim_list_data`: the record, or `None` when the row raises. */
  function ClaimFromRow(row: Row): (r: Option<Claim>)
    ensures r.None? <==> !Blank(row, "id") && ParseInt(row["id"]).None?
    ensures r.Some? && Blank(row, "id") ==> r.value.id == 0
    ensures r.Some? && !Blank(row, "id") ==> ParseInt(row["id"]) == Some(r.value.id)
    ensures r.Some? ==> r.value.patientName == Some(FieldOr(row, "patient_name", ""))
    ensures r.Some? ==> r.value.status == Some(FieldOr(row, "status", "")) && r.value.insurerName == Some(FieldOr(row, "insurer_name", ""))
    ensures r.Some? && Blank(row, "billed_amount") ==> r.value.billedAmount.None?
    ensures r.Some? && !Blank(row, "billed_amount") ==> r.value.billedAmount == ParseDecimal(row["billed_amount"])
    ensures r.Some? && Blank(row, "paid_amount") ==> r.value.paidAmount.None?
    ensures r.Some? && !Blank(row, "paid_amount") ==> r.value.paidAmount == ParseDecimal(row["paid_amount"])
    ensures r.Some? ==> !r.value.dischargeDate.DateText? && DatesValid(r.value)
    ensures r.Some? ==> (r.value.dischargeDate.OnDate? <==> !Blank(row, "discharge_date") && ParseIsoDate(row["discharge_date"]).Some?)
    ensures r.Some? && r.value.dischargeDate.OnDate? ==> ParseIsoDate(row["discharge_date"]) == Some(r.value.dischargeDate.date)
  {
    match IdOrZero(row, "id")
    case None => None
    case Some(id) =>
      Some(Claim(
        id,
        Some(FieldOr(row, "patient_name", "")),
        LenientAmount(row, "billed_amount"),
        LenientAmount(row, "paid_amount"),
        Some(FieldOr(row, "status", "")),
        Some(FieldOr(row, "insurer_name", "")),
        LenientDate(row, "discharge_date")))
  }

  /** The body of the row loop of `load_claim_detail_data`. */
  function DetailFromRow(row: Row): (r: Option<Detail>)
    ensures r.None? <==> IdOrZero(row, "id").None? || IdOrZero(row, "claim_id").None?
    ensures r.Some? ==> Some(r.value.id) == IdOrZero(row, "id") && Some(r.value.claimId) == IdOrZero(row, "claim_id")
    ensures r.Some? ==> r.value.denialReason == Some(FieldOr(row, "denial_reason", "")) && r.value.cptCodes == Some(FieldOr(row, "cpt_codes", ""))
  {
    match (IdOrZero(row, "id"), IdOrZero(row, "claim_id"))
    case (Some(id), Some(claimId)) =>
      Some(Detail(id, claimId, Some(FieldOr(row, "denial_reason", "")), Some(FieldOr(row, "cpt_codes", ""))))
    case _ => None
  }

  /** The shape of the claims this loader stores: no null text, and no unconverted date text. */
  predicate LoadShaped(c: Claim)
  {
    c.patientName.Some? && c.status.Some? && c.insurerName.Some? && !c.dischargeDate.DateText? && DatesValid(c)
  }

  /** A claim of that shape, written as a CSV line, is read back as itself. */
  lemma ClaimRowRoundTrip(c: Claim)
    requires LoadShaped(c)
    ensures ClaimFromRow(ClaimRow(c)) == Some(c)
  {
    var row := ClaimRow(c);
    ClaimRowCells(c);
    IdOrZeroOfText(c.id, row, "id");
    LenientAmountOfCell(c.billedAmount, row, "billed_amount");
    LenientAmountOfCell(c.paidAmount, row, "paid_amount");
    LenientDateOfCell(c.dischargeDate, row, "discharge_date");
    ClaimFromCells(c, row);
  }

  lemma ClaimFromCells(c: Claim, row: Row)
    requires c.patientName.Some? && c.status.Some? && c.insurerName.Some?
    requires IdOrZero(row, "id") == Some(c.id)
    requires "patient_name" in row && row["patient_name"] == c.patientName.value
    requires "status" in row && row["status"] == c.status.value
    requires "insurer_name" in row && row["insurer_name"] == c.insurerName.value
    requires LenientAmount(row, "billed_amount") == c.billedAmount
    requires LenientAmount(row, "paid_amount") == c.paidAmount
    requires LenientDate(row, "discharge_date") == c.dischargeDate
    ensures ClaimFromRow(row) == Some(c)
  {
  }

  lemma IdOrZeroOfText(i: int, row: Row, key: string)
    requires key in row && row[key] == IntToString(i)
    ensures IdOrZero(row, key) == Some(i)
  {
    ParseIntOfIntToString(i);
  }

  lemma LenientAmountOfCell(a: Option<Decimal>, row: Row, key: string)
    requires key in row && row[key] == AmountCell(a)
    ensures LenientAmount(row, key) == a
  {
    AmountCellRoundTrip(a);
  }

  lemma LenientDateOfCell(dd: DischargeDate, row: Row, key: string)
    requires !dd.DateText? && (dd.OnDate? ==> ValidDate(dd.date))
    requires key in row && row[key] == DateCell(dd)
    ensures LenientDate(row, key) == dd
  {
    if dd.OnDate? {
      ParseIsoText(dd.date);
    }
  }

  /** Every detail with text in both optional columns, written as a CSV line, is read back as itself. */
  lemma DetailRowRoundTrip(d: Detail)
    requires d.denialReason.Some? && d.cptCodes.Some?
    ensures DetailFromRow(DetailRow(d)) == Some(d)
  {
    var row := DetailRow(d);
    DetailRowCells(d);
    IdOrZeroOfText(d.id, row, "id");
    IdOrZeroOfText(d.claimId, row, "claim_id");
    DetailFromCells(d, row);
  }

  lemma DetailFromCells(d: Detail, row: Row)
    requires d.denialReason.Some? && d.cptCodes.Some?
    requires IdOrZero(row, "id") == Some(d.id) && IdOrZero(row, "claim_id") == Some(d.claimId)
    requires "denial_reason" in row && row["denial_reason"] == d.denialReason.value
    requires "cpt_codes" in row && row["cpt_codes"] == d.cptCodes.value
    ensures DetailFromRow(row) == Some(d)
  {
  }

  /** `load_claim_list_data`: `Err` carries the state the exception leaves behind. */
  function LoadClaimList(db: Db, input: CsvInput): Result<Db, Db>
  {
    var cleared := ClearClaims(db);
    match input
    case Missing => Ok(cleared)
    case Unreadable => Err(cleared)
    case Present(rows) => Ok(AddClaims(cleared, Ingest.Admitted(rows, ClaimFromRow)))
  }

  /** `load_claim_detail_data`. */
  function LoadClaimDetail(db: Db, input: CsvInput): Result<Db, Db>
  {
    var cleared := ClearDetails(db);
    match input
    case Missing => Ok(cleared)
    case Unreadable => Err(cleared)
    case Present(rows) => Ok(AddDetails(cleared, Ingest.Admitted(rows, DetailFromRow)))
  }

  /** `handle`: both loads in turn; whatever the first one did stays when the second fails. */
  function Load(db: Db, claimsIn: CsvInput, detailsIn: CsvInput): Result<Db, Db>
  {
    match LoadClaimList(db, claimsIn)
    case Err(d) => Err(d)
    case Ok(d) => LoadClaimDetail(d, detailsIn)
  }

  /** The database a run leaves behind, whether it succeeded or not. */
  function After(r: Result<Db, Db>): Db
  {
    match r
    case Ok(d) => d
    case Err(d) => d
  }

  /** The claim table is emptied before the file is looked for, so without the file it ends empty, and the cascade takes every flag and note. */
  lemma MissingClaimFileEmptiesTable(db: Db)
    requires ValidDb(db)
    ensures LoadClaimList(db, Missing) == Ok(db.(claims := map[], flags := map[], notes := map[]))
  {
    ClearClaimsWipesAnnotations(db);
  }

  /** After a load, the claim table holds exactly the admitted ids, each with its first admitted row. */
  lemma {:induction false} LoadedClaimsFirstWins(db: Db, rows: seq<Row>, k: int)
    requires ValidDb(db)
    ensures var objs := Ingest.Admitted(rows, ClaimFromRow);
      var r := LoadClaimList(db, Present(rows));
      r.Ok? && r.value.claims.Keys == KeysOf(objs, ClaimKey)
      && (k in KeysOf(objs, ClaimKey) ==> r.value.claims[k] == objs[FirstIndex(objs, ClaimKey, k)])
  {
    var objs := Ingest.Admitted(rows, ClaimFromRow);
    ClearClaimsWipesAnnotations(db);
    if k in KeysOf(objs, ClaimKey) {
      InsertIgnoringFirstWins(map[], objs, ClaimKey, k);
    }
  }

  /** The reported count is the number of admitted rows; the table may hold fewer records, never more. */
  lemma {:induction false} LoadedClaimsCount(db: Db, rows: seq<Row>)
    requires ValidDb(db)
    ensures |LoadClaimList(db, Present(rows)).value.claims| <= |Ingest.Admitted(rows, ClaimFromRow)| <= |rows|
  {
    var objs := Ingest.Admitted(rows, ClaimFromRow);
    LoadedClaimsFirstWins(db, rows, 0);
    KeysOfBound(objs, ClaimKey);
    var r := LoadClaimList(db, Present(rows)).value;
    assert |r.claims| == |r.claims.Keys|;
  }

  /** With no transaction, a detail file that fails to read leaves the new claims in place and the details emptied. */
  lemma {:induction false} NoRollback(db: Db, rows: seq<Row>)
    requires ValidDb(db)
    ensures var r := Load(db, Present(rows), Unreadable);
      r.Err? && r.error.claims == InsertIgnoring(map[], Ingest.Admitted(rows, ClaimFromRow), ClaimKey) && r.error.details == map[]
  {
    ClearClaimsWipesAnnotations(db);
  }

  /** `load_claim_list_data` on the database. */
  method LoadClaimListData(db: ClaimDatabase, input: CsvInput) returns (ok: bool, loaded: nat, warned: seq<nat>)
    modifies db
    ensures LoadClaimList(old(db.State()), input) == if ok then Ok(db.State()) else Err(db.State())
    ensures input.Present? ==> loaded == |Ingest.Admitted(input.rows, ClaimFromRow)|
    ensures input.Present? ==> warned == Ingest.Warned(input.rows, ClaimFromRow, WarnLimit)
  {
    db.DeleteAllClaims();
    ok, loaded, warned := true, 0, [];
    match input {
      case Missing =>
      case Unreadable =>
        ok := false;
      case Present(rows) =>
        var objs;
        objs, warned := Ingest.CollectAdmitted(rows, ClaimFromRow, WarnLimit);
        if |objs| > 0 {
          db.BulkCreateClaims(objs);
        }
        loaded := |objs|;
    }
  }

  /** `load_claim_detail_data` on the database. */
  method LoadClaimDetailData(db: ClaimDatabase, input: CsvInput) returns (ok: bool, loaded: nat, warned: seq<nat>)
    modifies db
    ensures LoadClaimDetail(old(db.State()), input) == if ok then Ok(db.State()) else Err(db.State())
    ensures input.Present? ==> loaded == |Ingest.Admitted(input.rows, DetailFromRow)|
    ensures input.Present? ==> warned == Ingest.Warned(input.rows, DetailFromRow, WarnLimit)
  {
    db.DeleteAllDetails();
    ok, loaded, warned := true, 0, [];
    match input {
      case Missing =>
      case Unreadable =>
        ok := false;
      case Present(rows) =>
        var objs;
        objs, warned := Ingest.CollectAdmitted(rows, DetailFromRow, WarnLimit);
        if |objs| > 0 {
          db.BulkCreateDetails(objs);
        }
        loaded := |objs|;
    }
  }

  /** `handle`: reports success or the error, and never raises. */
  method Handle(db: ClaimDatabase, claimsIn: CsvInput, detailsIn: CsvInput) returns (succeeded: bool)
    modifies db
    ensures Load(old(db.State()), claimsIn, detailsIn) == if succeeded then Ok(db.State()) else Err(db.State())
  {
    var loaded, warned;
    succeeded, loaded, warned := LoadClaimListData(db, claimsIn);
    if succeeded {
      succeeded, loaded, warned := LoadClaimDetailData(db, detailsIn);
    }
  }
}
