/**
 * The original app's `reload_claims_data` command: the same atomic block as
 * the backend's, but every conversion is strict. An amount that is not a
 * decimal, like an id that is not an integer, aborts the whole reload; blank
 * text becomes null; the discharge date is stored as the text of the file.
 */
module LegacyReload {
  import opened Wrappers
  import opened Text
  import opened Values
  import opened Models
  import Reload

  /** `Decimal(row[key]) if row[key] else None`: `None` when `Decimal` raises, `Some(None)` for a blank field. */
  function StrictAmount(row: Row, key: string): (r: Option<Option<Decimal>>)
    ensures r == Some(None) <==> Blank(row, key)
    ensures r.None? <==> !Blank(row, key) && ParseDecimal(row[key]).None?
    ensures r.Some? && r.value.Some? ==> ParseDecimal(row[key]) == r.value
  {
    if Blank(row, key) then Some(None)
    else
      match ParseDecimal(row[key])
      case None => None
      case Some(d) => Some(Some(d))
  }

  /** `row[key] or None`. */
  function TextOrNone(row: Row, key: string): (r: Option<string>)
    ensures r.None? <==> Blank(row, key)
    ensures r.Some? ==> r.value == row[key] && r.value != ""
  {
    if Blank(row, key) then None else Some(row[key])
  }

  /** The `ClaimList(...)` built from one row; `None` when building it raises. */
  function ClaimFromRow(row: Row): (r: Option<Claim>)
    ensures r.None? <==> IdOf(row, "id").None? || StrictAmount(row, "billed_amount").None? || StrictAmount(row, "paid_amount").None?
    ensures r.Some? ==> Some(r.value.id) == IdOf(row, "id")
    ensures r.Some? ==> Some(r.value.billedAmount) == StrictAmount(row, "billed_amount")
    ensures r.Some? ==> Some(r.value.paidAmount) == StrictAmount(row, "paid_amount")
    ensures r.Some? ==> r.value.patientName == TextOrNone(row, "patient_name")
    ensures r.Some? ==> r.value.status == TextOrNone(row, "status") && r.value.insurerName == TextOrNone(row, "insurer_name")
    ensures r.Some? ==> (r.value.dischargeDate.NoDate? <==> Blank(row, "discharge_date"))
    ensures r.Some? && !Blank(row, "discharge_date") ==> r.value.dischargeDate == DateText(row["discharge_date"])
    ensures r.Some? ==> !r.value.dischargeDate.OnDate?
  {
    match (IdOf(row, "id"), StrictAmount(row, "billed_amount"), StrictAmount(row, "paid_amount"))
    case (Some(id), Some(billed), Some(paid)) =>
      Some(Claim(
        id,
        TextOrNone(row, "patient_name"),
        billed,
        paid,
        TextOrNone(row, "status"),
        TextOrNone(row, "insurer_name"),
        if Blank(row, "discharge_date") then NoDate else DateText(row["discharge_date"])))
    case _ => None
  }

  /** The `ClaimDetail(...)` built from one row. */
  function DetailFromRow(row: Row): (r: Option<Detail>)
    ensures r.None? <==> IdOf(row, "id").None? || IdOf(row, "claim_id").None?
    ensures r.Some? ==> Some(r.value.id) == IdOf(row, "id") && Some(r.value.claimId) == IdOf(row, "claim_id")
    ensures r.Some? ==> r.value.denialReason == TextOrNone(row, "denial_reason") && r.value.cptCodes == TextOrNone(row, "cpt_codes")
  {
    match (IdOf(row, "id"), IdOf(row, "claim_id"))
    case (Some(id), Some(claimId)) =>
      Some(Detail(id, claimId, TextOrNone(row, "denial_reason"), TextOrNone(row, "cpt_codes")))
    case _ => None
  }

  /** Text this command can store: null, or not empty (an empty field is read as null). */
  predicate StoredText(t: Option<string>)
  {
    t.Some? ==> t.value != ""
  }

  /** The shape of the claims this command stores. */
  predicate LegacyShaped(c: Claim)
  {
    && StoredText(c.patientName) && StoredText(c.status) && StoredText(c.insurerName)
    && (c.dischargeDate.NoDate? || (c.dischargeDate.DateText? && c.dischargeDate.text != ""))
  }

  lemma IdOfText(i: int, row: Row, key: string)
    requires key in row && row[key] == IntToString(i)
    ensures IdOf(row, key) == Some(i)
  {
    ParseIntOfIntToString(i);
  }

  lemma StrictAmountOfCell(a: Option<Decimal>, row: Row, key: string)
    requires key in row && row[key] == AmountCell(a)
    ensures StrictAmount(row, key) == Some(a)
  {
    AmountCellRoundTrip(a);
  }

  lemma TextOfCell(t: Option<string>, row: Row, key: string)
    requires StoredText(t)
    requires key in row && row[key] == TextCell(t)
    ensures TextOrNone(row, key) == t
  {
  }

  lemma ClaimRowText(c: Claim)
    requires LegacyShaped(c)
    ensures TextOrNone(ClaimRow(c), "patient_name") == c.patientName
    ensures TextOrNone(ClaimRow(c), "status") == c.status
    ensures TextOrNone(ClaimRow(c), "insurer_name") == c.insurerName
  {
    var row := ClaimRow(c);
    assert row["patient_name"] == TextCell(c.patientName);
    assert row["status"] == TextCell(c.status);
    assert row["insurer_name"] == TextCell(c.insurerName);
    TextOfCell(c.patientName, row, "patient_name");
    TextOfCell(c.status, row, "status");
    TextOfCell(c.insurerName, row, "insurer_name");
  }

  lemma ClaimRowDate(c: Claim)
    requires LegacyShaped(c)
    ensures !Blank(ClaimRow(c), "discharge_date") <==> c.dischargeDate.DateText?
    ensures c.dischargeDate.DateText? ==> ClaimRow(c)["discharge_date"] == c.dischargeDate.text
  {
    var row := ClaimRow(c);
    assert row["discharge_date"] == DateCell(c.dischargeDate);
  }

  /** A row from which every column of `c` is read back builds `c` itself. */
  lemma ClaimFromCells(c: Claim, row: Row)
    requires LegacyShaped(c)
    requires IdOf(row, "id") == Some(c.id)
    requires StrictAmount(row, "billed_amount") == Some(c.billedAmount)
    requires StrictAmount(row, "paid_amount") == Some(c.paidAmount)
    requires TextOrNone(row, "patient_name") == c.patientName
    requires TextOrNone(row, "status") == c.status
    requires TextOrNone(row, "insurer_name") == c.insurerName
    requires !Blank(row, "discharge_date") <==> c.dischargeDate.DateText?
    requires c.dischargeDate.DateText? ==> row["discharge_date"] == c.dischargeDate.text
    ensures ClaimFromRow(row) == Some(c)
  {
  }

  /** A claim of that shape, written as a CSV line, is read back as itself. */
  lemma ClaimRowRoundTrip(c: Claim)
    requires LegacyShaped(c)
    ensures ClaimFromRow(ClaimRow(c)) == Some(c)
  {
    var row := ClaimRow(c);
    IdOfText(c.id, row, "id");
    StrictAmountOfCell(c.billedAmount, row, "billed_amount");
    StrictAmountOfCell(c.paidAmount, row, "paid_amount");
    ClaimRowText(c);
    ClaimRowDate(c);
    ClaimFromCells(c, row);
  }

  /** A detail whose optional columns are null or not empty, written as a CSV line, is read back as itself. */
  lemma DetailRowRoundTrip(d: Detail)
    requires StoredText(d.denialReason) && StoredText(d.cptCodes)
    ensures DetailFromRow(DetailRow(d)) == Some(d)
  {
    var row := DetailRow(d);
    DetailRowCells(d);
    IdOfText(d.id, row, "id");
    IdOfText(d.claimId, row, "claim_id");
    TextOfCell(d.denialReason, row, "denial_reason");
    TextOfCell(d.cptCodes, row, "cpt_codes");
    DetailFromCells(d, row);
  }

  lemma DetailFromCells(d: Detail, row: Row)
    requires IdOf(row, "id") == Some(d.id) && IdOf(row, "claim_id") == Some(d.claimId)
    requires TextOrNone(row, "denial_reason") == d.denialReason && TextOrNone(row, "cpt_codes") == d.cptCodes
    ensures DetailFromRow(row) == Some(d)
  {
  }

  /** One claim row with an amount that is not a decimal aborts the reload, and the database is left as it was. */
  lemma BadAmountAborts(db: Db, mode: Reload.Mode, rows: seq<Row>, detailsIn: CsvInput, i: nat)
    requires i < |rows| && !Blank(rows[i], "billed_amount") && ParseDecimal(rows[i]["billed_amount"]).None?
    ensures Reload.Reloaded(db, mode, Present(rows), detailsIn, ClaimFromRow, DetailFromRow) == db
  {
    Reload.BadClaimRowRollsBack(db, mode, rows, detailsIn, ClaimFromRow, DetailFromRow, i);
  }

  /** `handle`. */
  method Handle(db: ClaimDatabase, mode: Reload.Mode, claimsIn: CsvInput, detailsIn: CsvInput) returns (r: Result<(), Reload.ReloadError>)
    modifies db
    ensures db.State() == Reload.Reloaded(old(db.State()), mode, claimsIn, detailsIn, ClaimFromRow, DetailFromRow)
    ensures r.Ok? <==> Reload.Block(old(db.State()), mode, claimsIn, detailsIn, ClaimFromRow, DetailFromRow).Ok?
  {
    r := Reload.Run(db, mode, claimsIn, detailsIn, ClaimFromRow, DetailFromRow);
  }
}
