/**
 * The backend's `reload_claims_data` command: the atomic reload, with
 * `parse_date` and `parse_decimal` turning bad dates into null and bad
 * amounts into 0, while an id that is not an integer aborts everything.
 */
module BackendReload {
  import opened Wrappers
  import opened Text
  import opened Values
  import opened Models
  import Reload

  /** `parse_date`: blank, `'nan'` and text that is not a `%Y-%m-%d` date all give null. */
  function ParseDate(value: Option<string>): (r: Option<Date>)
    ensures r.Some? <==> value.Some? && value.value != "" && value.value != "nan" && ParseIsoDate(value.value).Some?
    ensures r.Some? ==> ValidDate(r.value) && ParseIsoDate(value.value) == r
  {
    match value
    case None => None
    case Some(s) => if s == "" || s == "nan" then None else ParseIsoDate(s)
  }

  /** Every valid date written `YYYY-MM-DD` is parsed back to itself. */
  lemma ParseDateOfIsoText(d: Date)
    requires ValidDate(d)
    ensures ParseDate(Some(IsoText(d))) == Some(d)
  {
    ParseIsoText(d);
  }

  /** `parse_decimal`: blank, `'nan'` and text that is not a number all give 0, never null. */
  function ParseDecimalOrZero(value: Option<string>): (r: Decimal)
    ensures value.None? || value == Some("") || value == Some("nan") ==> r == Zero
    ensures value.Some? && ParseDecimal(value.value).None? ==> r == Zero
    ensures r != Zero ==> value.Some? && ParseDecimal(value.value) == Some(r)
    ensures value.Some? && value.value != "" && value.value != "nan" && ParseDecimal(value.value).Some? ==> r == ParseDecimal(value.value).value
  {
    match value
    case None => Zero
    case Some(s) =>
      if s == "" || s == "nan" then Zero
      else
        match ParseDecimal(s)
        case None => Zero
        case Some(d) => d
  }

  /** Every decimal written in plain notation is parsed back to itself. */
  lemma ParseDecimalOrZeroOfText(d: Decimal)
    ensures ParseDecimalOrZero(Some(DecimalText(d))) == d
  {
    ParseDecimalText(d);
    assert DecimalText(d) != "" && DecimalText(d) != "nan" by {
      var parts := DigitsOf(d);
      assert IsDigit(DecimalText(d)[|DecimalText(d)| - 1]);
    }
  }

  /** `parse_decimal(row.get(key))`. */
  function AmountOf(row: Row, key: string): Decimal
  {
    ParseDecimalOrZero(Field(row, key))
  }

  /** `parse_date(row.get(key))`, stored as the claim's discharge date. */
  function DateOf(row: Row, key: string): (r: DischargeDate)
    ensures !r.DateText? && (r.OnDate? ==> ValidDate(r.date))
  {
    match ParseDate(Field(row, key))
    case None => NoDate
    case Some(d) => OnDate(d)
  }

  /** The `ClaimList(...)` built from one row of the claim list file; `None` when building it raises. */
  function ClaimFromRow(row: Row): (r: Option<Claim>)
    ensures r.None? <==> IdOf(row, "id").None?
    ensures r.Some? ==> Some(r.value.id) == IdOf(row, "id")
    ensures r.Some? ==> r.value.patientName == Some(FieldOr(row, "patient_name", ""))
    ensures r.Some? ==> r.value.status == Some(FieldOr(row, "status", "")) && r.value.insurerName == Some(FieldOr(row, "insurer_name", ""))
    ensures r.Some? ==> r.value.billedAmount == Some(ParseDecimalOrZero(Field(row, "billed_amount")))
    ensures r.Some? ==> r.value.paidAmount == Some(ParseDecimalOrZero(Field(row, "paid_amount")))
    ensures r.Some? ==> r.value.dischargeDate == match ParseDate(Field(row, "discharge_date")) case None => NoDate case Some(d) => OnDate(d)
    ensures r.Some? ==> !r.value.dischargeDate.DateText? && DatesValid(r.value)
  {
    match IdOf(row, "id")
    case None => None
    case Some(id) =>
      Some(Claim(
        id,
        Some(FieldOr(row, "patient_name", "")),
        Some(AmountOf(row, "billed_amount")),
        Some(AmountOf(row, "paid_amount")),
        Some(FieldOr(row, "status", "")),
        Some(FieldOr(row, "insurer_name", "")),
        DateOf(row, "discharge_date")))
  }

  /** The `ClaimDetail(...)` built from one row of the claim detail file. */
  function DetailFromRow(row: Row): (r: Option<Detail>)
    ensures r.None? <==> IdOf(row, "id").None? || IdOf(row, "claim_id").None?
    ensures r.Some? ==> Some(r.value.id) == IdOf(row, "id") && Some(r.value.claimId) == IdOf(row, "claim_id")
    ensures r.Some? ==> r.value.denialReason == Some(FieldOr(row, "denial_reason", "")) && r.value.cptCodes == Some(FieldOr(row, "cpt_codes", ""))
  {
    match (IdOf(row, "id"), IdOf(row, "claim_id"))
    case (Some(id), Some(claimId)) =>
      Some(Detail(id, claimId, Some(FieldOr(row, "denial_reason", "")), Some(FieldOr(row, "cpt_codes", ""))))
    case _ => None
  }

  /** The shape of the claims this command stores: no null text or amount, and no unconverted date text. */
  predicate ReloadShaped(c: Claim)
  {
    && c.patientName.Some? && c.status.Some? && c.insurerName.Some?
    && c.billedAmount.Some? && c.paidAmount.Some?
    && !c.dischargeDate.DateText? && DatesValid(c)
  }

  lemma IdOfText(i: int, row: Row, key: string)
    requires key in row && row[key] == IntToString(i)
    ensures IdOf(row, key) == Some(i)
  {
    ParseIntOfIntToString(i);
  }

  lemma AmountOfCell(d: Decimal, row: Row, key: string)
    requires key in row && row[key] == AmountCell(Some(d))
    ensures AmountOf(row, key) == d
  {
    ParseDecimalOrZeroOfText(d);
  }

  lemma DateOfCell(dd: DischargeDate, row: Row, key: string)
    requires !dd.DateText? && (dd.OnDate? ==> ValidDate(dd.date))
    requires key in row && row[key] == DateCell(dd)
    ensures DateOf(row, key) == dd
  {
    if dd.OnDate? {
      ParseDateOfIsoText(dd.date);
    }
  }

  /** A row from which every column of `c` is read back builds `c` itself. */
  lemma ClaimFromCells(c: Claim, row: Row)
    requires ReloadShaped(c)
    requires IdOf(row, "id") == Some(c.id)
    requires FieldOr(row, "patient_name", "") == c.patientName.value
    requires FieldOr(row, "status", "") == c.status.value
    requires FieldOr(row, "insurer_name", "") == c.insurerName.value
    requires AmountOf(row, "billed_amount") == c.billedAmount.value
    requires AmountOf(row, "paid_amount") == c.paidAmount.value
    requires DateOf(row, "discharge_date") == c.dischargeDate
    ensures ClaimFromRow(row) == Some(c)
  {
  }

  lemma ClaimRowText(c: Claim)
    requires ReloadShaped(c)
    ensures FieldOr(ClaimRow(c), "patient_name", "") == c.patientName.value
    ensures FieldOr(ClaimRow(c), "status", "") == c.status.value
    ensures FieldOr(ClaimRow(c), "insurer_name", "") == c.insurerName.value
  {
    var row := ClaimRow(c);
    assert row["patient_name"] == c.patientName.value;
    assert row["status"] == c.status.value;
    assert row["insurer_name"] == c.insurerName.value;
  }

  /** A claim of that shape, written as a CSV line, is read back as itself. */
  lemma ClaimRowRoundTrip(c: Claim)
    requires ReloadShaped(c)
    ensures ClaimFromRow(ClaimRow(c)) == Some(c)
  {
    var row := ClaimRow(c);
    IdOfText(c.id, row, "id");
    AmountOfCell(c.billedAmount.value, row, "billed_amount");
    AmountOfCell(c.paidAmount.value, row, "paid_amount");
    DateOfCell(c.dischargeDate, row, "discharge_date");
    ClaimRowText(c);
    ClaimFromCells(c, row);
  }

  /** Every detail with text in both optional columns, written as a CSV line, is read back as itself. */
  lemma DetailRowRoundTrip(d: Detail)
    requires d.denialReason.Some? && d.cptCodes.Some?
    ensures DetailFromRow(DetailRow(d)) == Some(d)
  {
    var row := DetailRow(d);
    DetailRowCells(d);
    IdOfText(d.id, row, "id");
    IdOfText(d.claimId, row, "claim_id");
    DetailFromCells(d, row);
  }

  lemma DetailFromCells(d: Detail, row: Row)
    requires d.denialReason.Some? && d.cptCodes.Some?
    requires IdOf(row, "id") == Some(d.id) && IdOf(row, "claim_id") == Some(d.claimId)
    requires "denial_reason" in row && row["denial_reason"] == d.denialReason.value
    requires "cpt_codes" in row && row["cpt_codes"] == d.cptCodes.value
    ensures DetailFromRow(row) == Some(d)
  {
  }

  /** A claim row with a blank or non-integer id aborts the reload, and the database is left as it was. */
  lemma BadIdAborts(db: Db, mode: Reload.Mode, rows: seq<Row>, detailsIn: CsvInput, i: nat)
    requires i < |rows| && IdOf(rows[i], "id").None?
    ensures Reload.Reloaded(db, mode, Present(rows), detailsIn, ClaimFromRow, DetailFromRow) == db
  {
    Reload.BadClaimRowRollsBack(db, mode, rows, detailsIn, ClaimFromRow, DetailFromRow, i);
  }

  /** `handle`. */
  method Handle(db: ClaimDatabase, mode: Reload.Mode, claimsIn: CsvInput, detailsIn: CsvInput) returns (r: Result<(), Reload.ReloadError>)
    modifies db
    ensures db.State() == Reload.Reloaded(old(db.State()), mode, claimsIn, detailsIn, ClaimFromRow, DetailFromRow)
    ensures r.Ok? <==> Reload.Block(old(db.State()), mode, claimsIn, detailsIn, ClaimFromRow, DetailFromRow).Ok?
  {
    r := Reload.Run(db, mode, claimsIn, detailsIn, ClaimFromRow, DetailFromRow);
  }
}
