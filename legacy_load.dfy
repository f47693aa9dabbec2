/**
 * The original app's `load_claims_data` command: it empties a table, then
 * copies every row of the same-named table of the underlying SQLite file
 * into it. Nothing is skipped: ids and text are copied as they are, dates
 * and amounts are converted, and a value that cannot be converted becomes
 * null. Errors are printed and swallowed, and there is no transaction.
 */
module LegacyLoad {
  import opened Wrappers
  import opened Text
  import opened Values
  import opened Bulk
  import opened Models

  /** A value of a SQLite column as the cursor returns it; a `REAL` is represented by the text `str()` gives it. */
  datatype SqlValue = SqlNull | SqlInteger(i: int) | SqlText(s: string)

  /** A row of `SELECT id, patient_name, billed_amount, paid_amount, status, insurer_name, discharge_date FROM claim_list`. */
  datatype SourceClaim = SourceClaim(id: int, patientName: Option<string>, billedAmount: SqlValue, paidAmount: SqlValue,
                                     status: Option<string>, insurerName: Option<string>, dischargeDate: SqlValue)

  /** A row of `SELECT id, claim_id, denial_reason, cpt_codes FROM claim_detail`. */
  datatype SourceDetail = SourceDetail(id: int, claimId: int, denialReason: Option<string>, cptCodes: Option<string>)

  /** Python truthiness of a column value. */
  predicate Truthy(v: SqlValue)
  {
    match v
    case SqlNull => false
    case SqlInteger(i) => i != 0
    case SqlText(s) => s != ""
  }

  /** `str(v)` for a value that is not null. */
  function SqlStr(v: SqlValue): string
    requires !v.SqlNull?
  {
    match v
    case SqlInteger(i) => IntToString(i)
    case SqlText(s) => s
  }

  /**
   * The discharge date: a falsy value is null; text is read with
   * `strptime('%Y-%m-%d')`, and both a `ValueError` and the `TypeError` that
   * a non-text value raises give null.
   */
  function CopiedDate(v: SqlValue): (r: DischargeDate)
    ensures !r.DateText?
    ensures r.OnDate? <==> v.SqlText? && ParseIsoDate(v.s).Some?
    ensures r.OnDate? ==> ValidDate(r.date) && ParseIsoDate(v.s) == Some(r.date)
  {
    if !Truthy(v) then NoDate
    else
      match v
      case SqlText(s) =>
        (match ParseIsoDate(s)
         case Some(d) => OnDate(d)
         case None => NoDate)
      case _ => NoDate
  }

  /** An amount as the code is evidently meant to convert it: null stays null, anything else is `Decimal(str(v))`, or null when that fails. */
  function CopiedAmount(v: SqlValue): (r: Option<Decimal>)
    ensures v.SqlNull? ==> r.None?
    ensures !v.SqlNull? ==> r == ParseDecimal(SqlStr(v))
  {
    if v.SqlNull? then None else ParseDecimal(SqlStr(v))
  }

  /**
   * An amount as the code converts it: `Decimal` signals text it cannot read
   * with `decimal.InvalidOperation`, which is not one of the `ValueError` and
   * `TypeError` the `except` clause names, so it escapes (`None` here).
   */
  function CopiedAmountAsWritten(v: SqlValue): (r: Option<Option<Decimal>>)
    ensures r.None? <==> !v.SqlNull? && ParseDecimal(SqlStr(v)).None?
    ensures r.Some? ==> r.value == CopiedAmount(v)
  {
    if v.SqlNull? then Some(None)
    else
      match ParseDecimal(SqlStr(v))
      case None => None
      case Some(d) => Some(Some(d))
  }

  /** The `ClaimList(...)` built from one source row. */
  function ClaimFromSource(r: SourceClaim): (c: Claim)
    ensures c.id == r.id && c.patientName == r.patientName && c.status == r.status && c.insurerName == r.insurerName
    ensures c.billedAmount == CopiedAmount(r.billedAmount) && c.paidAmount == CopiedAmount(r.paidAmount)
    ensures c.dischargeDate == CopiedDate(r.dischargeDate) && DatesValid(c)
  {
    Claim(r.id, r.patientName, CopiedAmount(r.billedAmount), CopiedAmount(r.paidAmount),
          r.status, r.insurerName, CopiedDate(r.dischargeDate))
  }

  /** The same row as the code converts it: `None` when an amount conversion escapes. */
  function ClaimFromSourceAsWritten(r: SourceClaim): (c: Option<Claim>)
    ensures c.None? <==> CopiedAmountAsWritten(r.billedAmount).None? || CopiedAmountAsWritten(r.paidAmount).None?
    ensures c.Some? ==> c.value == ClaimFromSource(r)
  {
    match (CopiedAmountAsWritten(r.billedAmount), CopiedAmountAsWritten(r.paidAmount))
    case (Some(billed), Some(paid)) =>
      Some(Claim(r.id, r.patientName, billed, paid, r.status, r.insurerName, CopiedDate(r.dischargeDate)))
    case _ => None
  }

  /** The `ClaimDetail(...)` built from one source row. */
  function DetailFromSource(r: SourceDetail): (d: Detail)
    ensures d.id == r.id && d.claimId == r.claimId && d.denialReason == r.denialReason && d.cptCodes == r.cptCodes
  {
    Detail(r.id, r.claimId, r.denialReason, r.cptCodes)
  }

  /** The records built from the source rows, one per row, in order. */
  function CopiedClaims(rows: seq<SourceClaim>): (objs: seq<Claim>)
    ensures |objs| == |rows|
    ensures forall i :: 0 <= i < |rows| ==> objs[i] == ClaimFromSource(rows[i])
  {
    seq(|rows|, i requires 0 <= i < |rows| => ClaimFromSource(rows[i]))
  }

  function CopiedDetails(rows: seq<SourceDetail>): (objs: seq<Detail>)
    ensures |objs| == |rows|
    ensures forall i :: 0 <= i < |rows| ==> objs[i] == DetailFromSource(rows[i])
  {
    seq(|rows|, i requires 0 <= i < |rows| => DetailFromSource(rows[i]))
  }

  /** The ids of the source rows. */
  function SourceClaimIds(rows: seq<SourceClaim>): set<int>
  {
    set i | 0 <= i < |rows| :: rows[i].id
  }

  /**
   * `load_claim_list_data`: `rows` is `None` when the query raises. The
   * table is emptied first; `Err` carries the state the raise leaves behind.
   */
  function LoadClaimList(db: Db, rows: Option<seq<SourceClaim>>): Result<Db, Db>
  {
    var cleared := ClearClaims(db);
    match rows
    case None => Err(cleared)
    case Some(rs) => Ok(AddClaims(cleared, CopiedClaims(rs)))
  }

  /** `load_claim_detail_data`. */
  function LoadClaimDetail(db: Db, rows: Option<seq<SourceDetail>>): Result<Db, Db>
  {
    var cleared := ClearDetails(db);
    match rows
    case None => Err(cleared)
    case Some(rs) => Ok(AddDetails(cleared, CopiedDetails(rs)))
  }

  /** `handle`: the detail load runs only when the claim load did not raise. */
  function Load(db: Db, claimRows: Option<seq<SourceClaim>>, detailRows: Option<seq<SourceDetail>>): Result<Db, Db>
  {
    match LoadClaimList(db, claimRows)
    case Err(d) => Err(d)
    case Ok(d) => LoadClaimDetail(d, detailRows)
  }

  /** `load_claim_list_data` as written: one amount that `Decimal` cannot read ends the load after the table was emptied. */
  function LoadClaimListAsWritten(db: Db, rows: Option<seq<SourceClaim>>): Result<Db, Db>
  {
    var cleared := ClearClaims(db);
    match rows
    case None => Err(cleared)
    case Some(rs) =>
      if exists i :: 0 <= i < |rs| && ClaimFromSourceAsWritten(rs[i]).None? then Err(cleared)
      else Ok(AddClaims(cleared, CopiedClaims(rs)))
  }

  lemma {:induction false} CopiedClaimIds(rows: seq<SourceClaim>)
    ensures KeysOf(CopiedClaims(rows), ClaimKey) == SourceClaimIds(rows)
  {
    var objs := CopiedClaims(rows);
    forall k | k in SourceClaimIds(rows) ensures k in KeysOf(objs, ClaimKey) {
      var i :| 0 <= i < |rows| && rows[i].id == k;
      assert ClaimKey(objs[i]) == k;
    }
  }

  /** After the claim load, the table holds exactly the ids of the source rows. */
  lemma {:induction false} LoadedClaimIds(db: Db, rows: seq<SourceClaim>)
    requires ValidDb(db)
    ensures var r := LoadClaimList(db, Some(rows)); r.Ok? && r.value.claims.Keys == SourceClaimIds(rows)
  {
    ClearClaimsWipesAnnotations(db);
    CopiedClaimIds(rows);
  }

  /**
   * Each stored claim is built from the first source row with its id: the
   * same id and text, with converted amounts and date.
   */
  lemma {:induction false} EverySourceRowCopied(db: Db, rows: seq<SourceClaim>, k: int)
    requires ValidDb(db) && k in SourceClaimIds(rows)
    ensures var i := FirstIndex(CopiedClaims(rows), ClaimKey, k);
      i < |rows| && rows[i].id == k && (forall j :: 0 <= j < i ==> rows[j].id != k)
      && LoadClaimList(db, Some(rows)).value.claims[k] == ClaimFromSource(rows[i])
  {
    var objs := CopiedClaims(rows);
    CopiedClaimIds(rows);
    var i := FirstIndex(objs, ClaimKey, k);
    assert LoadClaimList(db, Some(rows)).value.claims == InsertIgnoring(map[], objs, ClaimKey) by {
      ClearClaimsWipesAnnotations(db);
    }
    InsertIgnoringFirstWins(map[], objs, ClaimKey, k);
    assert objs[i] == ClaimFromSource(rows[i]) && rows[i].id == k;
    forall j | 0 <= j < i ensures rows[j].id != k {
      assert ClaimKey(objs[j]) != k;
    }
  }

  /** The claim table is emptied before the query, so a query that raises leaves it empty, with every flag and note. */
  lemma FailedQueryEmptiesTable(db: Db)
    requires ValidDb(db)
    ensures LoadClaimList(db, None) == Err(db.(claims := map[], flags := map[], notes := map[]))
    ensures Load(db, None, None) == LoadClaimList(db, None)
  {
    ClearClaimsWipesAnnotations(db);
  }

  /** The detail table is emptied before its query, and each source detail is copied field for field. */
  lemma {:induction false} DetailsCopiedVerbatim(db: Db, rows: seq<SourceDetail>, i: nat)
    requires i < |rows| && forall j :: 0 <= j < |rows| && j != i ==> rows[j].id != rows[i].id
    ensures var r := LoadClaimDetail(db, Some(rows));
      r.Ok? && rows[i].id in r.value.details
      && r.value.details[rows[i].id] == Detail(rows[i].id, rows[i].claimId, rows[i].denialReason, rows[i].cptCodes)
  {
    var objs := CopiedDetails(rows);
    var k := rows[i].id;
    assert DetailKey(objs[i]) == k;
    InsertIgnoringFirstWins(map[], objs, DetailKey, k);
    assert FirstIndex(objs, DetailKey, k) == i;
  }

  /** A null amount stays null, an integer `n` becomes `Decimal(n)`, and an amount written in plain notation is read exactly. */
  lemma CopiedAmountValues(n: int, d: Decimal)
    ensures CopiedAmount(SqlNull) == None
    ensures CopiedAmount(SqlInteger(n)) == Some(Decimal(n, 0))
    ensures CopiedAmount(SqlText(DecimalText(d))) == Some(d)
  {
    ParseDecimalOfInt(n);
    ParseDecimalText(d);
  }

  /** A falsy date is null; a `YYYY-MM-DD` date is read back as itself. */
  lemma CopiedDateValues(d: Date)
    requires ValidDate(d)
    ensures CopiedDate(SqlNull) == NoDate && CopiedDate(SqlInteger(0)) == NoDate && CopiedDate(SqlText("")) == NoDate
    ensures CopiedDate(SqlText(IsoText(d))) == OnDate(d)
  {
    ParseIsoText(d);
  }

  /**
   * As written, any amount text that `Decimal` cannot read ends the load
   * with the claim table emptied; the intended conversion keeps the row,
   * with that amount null.
   */
  lemma {:induction false} UnreadableAmountEmptiesTable(db: Db, rows: seq<SourceClaim>, i: nat)
    requires ValidDb(db)
    requires i < |rows| && rows[i].billedAmount.SqlText? && ParseDecimal(rows[i].billedAmount.s).None?
    ensures LoadClaimListAsWritten(db, Some(rows)) == Err(db.(claims := map[], flags := map[], notes := map[]))
    ensures var r := LoadClaimList(db, Some(rows)); r.Ok? && rows[i].id in r.value.claims
  {
    ClearClaimsWipesAnnotations(db);
    assert ClaimFromSourceAsWritten(rows[i]).None?;
    LoadedClaimIds(db, rows);
    assert rows[i].id in SourceClaimIds(rows);
  }

  /** The smallest such input: an empty text amount. */
  lemma EmptyAmountTextAborts(db: Db)
    requires ValidDb(db)
    ensures var rows := [SourceClaim(1, Some("A"), SqlText(""), SqlNull, None, None, SqlNull)];
      LoadClaimListAsWritten(db, Some(rows)).Err? && LoadClaimList(db, Some(rows)).Ok?
  {
    var rows := [SourceClaim(1, Some("A"), SqlText(""), SqlNull, None, None, SqlNull)];
    UnreadableAmountEmptiesTable(db, rows, 0);
  }

  /** The copy loop of `load_claim_list_data`. */
  method CollectClaims(rows: seq<SourceClaim>) returns (objs: seq<Claim>)
    ensures objs == CopiedClaims(rows)
  {
    objs := [];
    var i := 0;
    while i < |rows|
      invariant 0 <= i <= |rows|
      invariant |objs| == i && forall j :: 0 <= j < i ==> objs[j] == ClaimFromSource(rows[j])
    {
      objs := objs + [ClaimFromSource(rows[i])];
      i := i + 1;
    }
  }

  /** The copy loop of `load_claim_detail_data`. */
  method CollectDetails(rows: seq<SourceDetail>) returns (objs: seq<Detail>)
    ensures objs == CopiedDetails(rows)
  {
    objs := [];
    var i := 0;
    while i < |rows|
      invariant 0 <= i <= |rows|
      invariant |objs| == i && forall j :: 0 <= j < i ==> objs[j] == DetailFromSource(rows[j])
    {
      objs := objs + [DetailFromSource(rows[i])];
      i := i + 1;
    }
  }

  /** `load_claim_list_data` on the database; `ok` is false when it raises. */
  method LoadClaimListData(db: ClaimDatabase, rows: Option<seq<SourceClaim>>) returns (ok: bool, loaded: nat)
    modifies db
    ensures LoadClaimList(old(db.State()), rows) == if ok then Ok(db.State()) else Err(db.State())
    ensures rows.Some? ==> loaded == |rows.value|
  {
    db.DeleteAllClaims();
    ok, loaded := true, 0;
    if rows.None? {
      ok := false;
    } else {
      var objs := CollectClaims(rows.value);
      if |objs| > 0 {
        db.BulkCreateClaims(objs);
      }
      loaded := |objs|;
    }
  }

  /** `load_claim_detail_data` on the database. */
  method LoadClaimDetailData(db: ClaimDatabase, rows: Option<seq<SourceDetail>>) returns (ok: bool, loaded: nat)
    modifies db
    ensures LoadClaimDetail(old(db.State()), rows) == if ok then Ok(db.State()) else Err(db.State())
    ensures rows.Some? ==> loaded == |rows.value|
  {
    db.DeleteAllDetails();
    ok, loaded := true, 0;
    if rows.None? {
      ok := false;
    } else {
      var objs := CollectDetails(rows.value);
      if |objs| > 0 {
        db.BulkCreateDetails(objs);
      }
      loaded := |objs|;
    }
  }

  /** `handle`: reports success or the error, and never raises. */
  method Handle(db: ClaimDatabase, claimRows: Option<seq<SourceClaim>>, detailRows: Option<seq<SourceDetail>>) returns (succeeded: bool)
    modifies db
    ensures Load(old(db.State()), claimRows, detailRows) == if succeeded then Ok(db.State()) else Err(db.State())
  {
    var loaded;
    succeeded, loaded := LoadClaimListData(db, claimRows);
    if succeeded {
      succeeded, loaded := LoadClaimDetailData(db, detailRows);
    }
  }
}
