/**
 * The CSV export of the older `claims/views.py`: one summary row per claim,
 * whose CPT and denial-reason columns gather the non-empty values of all
 * the claim's details.
 */
module LegacyViews {
  import opened Wrappers
  import opened Text
  import opened Values
  import opened Models
  import opened Views

  /** A cell of the summary row: text, the claim id, or an amount written as `$` and two decimals. */
  datatype SummaryCell = Plain(s: string) | Id(n: int) | Dollars(amount: Decimal)

  /** The nine column names of the summary export. */
  const SummaryHeader: seq<string> := [
    "Claim ID", "Patient Name", "Insurer", "Status", "Discharge Date",
    "Billed Amount", "Paid Amount", "CPT Codes", "Denial Reason"]

  /** `f"claim_{claim_id}_report.csv"`. */
  function SummaryFilename(claimId: int): string
  {
    "claim_" + IntToString(claimId) + "_report.csv"
  }

  /** `if value: gathered.append(value)`. */
  function Gather(gathered: seq<string>, v: Option<string>): seq<string>
  {
    if v.Some? && v.value != "" then gathered + [v.value] else gathered
  }

  /** The truthy values among `values`, in order. */
  function Present(values: seq<Option<string>>): (r: seq<string>)
    ensures forall i :: 0 <= i < |r| ==> r[i] != ""
    ensures |r| <= |values|
  {
    if |values| == 0 then []
    else
      var last := values[|values| - 1];
      var r := Present(values[..|values| - 1]);
      assert values == values[..|values| - 1] + [last];
      Gather(r, last)
  }

  lemma PresentSnoc(values: seq<Option<string>>, longer: seq<Option<string>>, v: Option<string>)
    requires longer == values + [v]
    ensures Present(longer) == Gather(Present(values), v)
  {
    assert longer[..|longer| - 1] == values;
  }

  /** One more detail adds its truthy CPT code and denial reason to what was gathered. */
  lemma GatherStep(ds: seq<Detail>, i: nat)
    requires i < |ds|
    ensures Present(CptCodesOf(ds[..i + 1])) == Gather(Present(CptCodesOf(ds[..i])), ds[i].cptCodes)
    ensures Present(DenialReasonsOf(ds[..i + 1])) == Gather(Present(DenialReasonsOf(ds[..i])), ds[i].denialReason)
  {
    PresentSnoc(CptCodesOf(ds[..i]), CptCodesOf(ds[..i + 1]), ds[i].cptCodes);
    PresentSnoc(DenialReasonsOf(ds[..i]), DenialReasonsOf(ds[..i + 1]), ds[i].denialReason);
  }

  /** The present values are exactly the truthy ones. */
  lemma {:induction false} PresentMembers(values: seq<Option<string>>)
    ensures forall v :: v in Present(values) <==> Some(v) in values && v != ""
    decreases |values|
  {
    if |values| > 0 {
      var init := values[..|values| - 1];
      PresentMembers(init);
      assert values == init + [values[|values| - 1]];
    }
  }

  /** `'; '.join(values) if values else '-'`. */
  function JoinedOrDash(values: seq<string>): string
  {
    if |values| == 0 then "-" else Join(values, "; ")
  }

  function CptCodesOf(ds: seq<Detail>): (r: seq<Option<string>>)
    ensures |r| == |ds| && forall i :: 0 <= i < |ds| ==> r[i] == ds[i].cptCodes
  {
    seq(|ds|, i requires 0 <= i < |ds| => ds[i].cptCodes)
  }

  function DenialReasonsOf(ds: seq<Detail>): (r: seq<Option<string>>)
    ensures |r| == |ds| && forall i :: 0 <= i < |ds| ==> r[i] == ds[i].denialReason
  {
    seq(|ds|, i requires 0 <= i < |ds| => ds[i].denialReason)
  }

  /** `f"${amount:.2f}" if amount else '$0.00'`. */
  function DollarsOf(a: Option<Decimal>): (r: SummaryCell)
    ensures r.Dollars?
  {
    Dollars(AmountOrZero(a))
  }

  /** The one data row of a claim's summary. */
  function SummaryRow(c: Claim, ds: seq<Detail>): seq<SummaryCell>
    requires DatesValid(c)
  {
    [Id(c.id), Plain(OrDash(c.patientName)), Plain(OrDash(c.insurerName)), Plain(OrDash(c.status)),
     Plain(DateOrDash(c.dischargeDate)), DollarsOf(c.billedAmount), DollarsOf(c.paidAmount),
     Plain(JoinedOrDash(Present(CptCodesOf(ds)))), Plain(JoinedOrDash(Present(DenialReasonsOf(ds))))]
  }

  /** The summary file of one claim, or the 404 of `get_object_or_404`. */
  datatype Summary = NoClaim | SummaryCsv(filename: string, header: seq<string>, row: seq<SummaryCell>)

  function SummaryOf(db: Db, claimId: int): Summary
    requires claimId in db.claims ==> DatesValid(db.claims[claimId])
  {
    if claimId !in db.claims then NoClaim
    else SummaryCsv(SummaryFilename(claimId), SummaryHeader, SummaryRow(db.claims[claimId], DetailsOf(db.details, claimId)))
  }

  /** The loop of the export view over a claim's details: it gathers the truthy CPT codes and denial reasons. */
  method GatherDetails(claimDetails: seq<Detail>) returns (cptCodes: seq<string>, denialReasons: seq<string>)
    ensures cptCodes == Present(CptCodesOf(claimDetails))
    ensures denialReasons == Present(DenialReasonsOf(claimDetails))
  {
    cptCodes, denialReasons := [], [];
    var i := 0;
    while i < |claimDetails|
      invariant 0 <= i <= |claimDetails|
      invariant cptCodes == Present(CptCodesOf(claimDetails[..i]))
      invariant denialReasons == Present(DenialReasonsOf(claimDetails[..i]))
    {
      var detail := claimDetails[i];
      GatherStep(claimDetails, i);
      if detail.cptCodes.Some? && detail.cptCodes.value != "" {
        cptCodes := cptCodes + [detail.cptCodes.value];
      }
      if detail.denialReason.Some? && detail.denialReason.value != "" {
        denialReasons := denialReasons + [detail.denialReason.value];
      }
      i := i + 1;
    }
    assert claimDetails[..i] == claimDetails;
  }

  /** `claim_detail` with `?export=csv`: the gathered CPT codes and denial reasons are joined into the one data row. */
  method ExportSummary(db: Db, claimId: int) returns (r: Summary)
    requires claimId in db.claims ==> DatesValid(db.claims[claimId])
    ensures r == SummaryOf(db, claimId)
  {
    if claimId !in db.claims {
      return NoClaim;
    }
    var claim := db.claims[claimId];
    var claimDetails := DetailsOf(db.details, claimId);
    var cptCodes, denialReasons := GatherDetails(claimDetails);
    var cptCodesStr := if |cptCodes| > 0 then Join(cptCodes, "; ") else "-";
    var denialReasonsStr := if |denialReasons| > 0 then Join(denialReasons, "; ") else "-";
    var row := [Id(claim.id), Plain(OrDash(claim.patientName)), Plain(OrDash(claim.insurerName)), Plain(OrDash(claim.status)),
                Plain(DateOrDash(claim.dischargeDate)), DollarsOf(claim.billedAmount), DollarsOf(claim.paidAmount),
                Plain(cptCodesStr), Plain(denialReasonsStr)];
    assert row == SummaryRow(claim, claimDetails);
    r := SummaryCsv(SummaryFilename(claimId), SummaryHeader, row);
  }

  /** Each piece of a join occurs in it. */
  lemma {:induction false} JoinContainsPiece(parts: seq<string>, sep: string, i: nat)
    requires i < |parts|
    ensures Contains(Join(parts, sep), parts[i])
    decreases |parts|
  {
    if |parts| == 1 {
      assert Join(parts, sep) == parts[0];
      PrefixContained(parts[0], "");
    } else if i == 0 {
      PrefixContained(parts[0], sep + Join(parts[1..], sep));
      assert Join(parts, sep) == parts[0] + (sep + Join(parts[1..], sep));
    } else {
      JoinContainsPiece(parts[1..], sep, i - 1);
      SuffixContains(parts[0] + sep, Join(parts[1..], sep), parts[i]);
      assert Join(parts, sep) == (parts[0] + sep) + Join(parts[1..], sep);
    }
  }

  lemma PrefixContained(a: string, b: string)
    ensures Contains(a + b, a)
  {
    assert a <= a + b;
  }

  lemma {:induction false} SuffixContains(a: string, b: string, sub: string)
    requires Contains(b, sub)
    ensures Contains(a + b, sub)
    decreases |a|
  {
    if |a| > 0 {
      SuffixContains(a[1..], b, sub);
      assert (a + b)[1..] == a[1..] + b;
    } else {
      assert a + b == b;
    }
  }

  /**
   * A gathered column is `-` when no value is present and otherwise
   * contains every present value.
   */
  lemma GatheredColumn(values: seq<Option<string>>)
    ensures (forall i :: 0 <= i < |values| ==> values[i].None? || values[i].value == "") ==> JoinedOrDash(Present(values)) == "-"
    ensures forall i :: 0 <= i < |values| && values[i].Some? && values[i].value != "" ==>
      Contains(JoinedOrDash(Present(values)), values[i].value)
  {
    var present := Present(values);
    PresentMembers(values);
    forall i | 0 <= i < |values| && values[i].Some? && values[i].value != ""
      ensures Contains(JoinedOrDash(present), values[i].value)
    {
      assert Some(values[i].value) in values;
      var j :| 0 <= j < |present| && present[j] == values[i].value;
      JoinContainsPiece(present, "; ", j);
    }
    if forall i :: 0 <= i < |values| ==> values[i].None? || values[i].value == "" {
      NothingPresent(values);
    }
  }

  lemma {:induction false} NothingPresent(values: seq<Option<string>>)
    requires forall i :: 0 <= i < |values| ==> values[i].None? || values[i].value == ""
    ensures Present(values) == []
    decreases |values|
  {
    if |values| > 0 {
      NothingPresent(values[..|values| - 1]);
    }
  }

  /**
   * The export has the nine-column header and one nine-cell row for the
   * claim; its CPT column is `-` when no detail has a CPT code and
   * otherwise contains every detail's CPT code. The denial-reason column
   * follows the same rule.
   */
  lemma SummaryColumns(db: Db, claimId: int)
    requires claimId in db.claims && DatesValid(db.claims[claimId])
    ensures var r := SummaryOf(db, claimId);
      var ds := DetailsOf(db.details, claimId);
      && r.SummaryCsv?
      && |r.header| == |r.row| == 9
      && r.filename == SummaryFilename(claimId)
      && ((forall i :: 0 <= i < |ds| ==> ds[i].cptCodes.None? || ds[i].cptCodes.value == "") ==> r.row[7] == Plain("-"))
      && ((forall i :: 0 <= i < |ds| ==> ds[i].denialReason.None? || ds[i].denialReason.value == "") ==> r.row[8] == Plain("-"))
      && (forall i :: 0 <= i < |ds| && ds[i].cptCodes.Some? && ds[i].cptCodes.value != "" ==>
            Contains(r.row[7].s, ds[i].cptCodes.value))
      && (forall i :: 0 <= i < |ds| && ds[i].denialReason.Some? && ds[i].denialReason.value != "" ==>
            Contains(r.row[8].s, ds[i].denialReason.value))
  {
    var ds := DetailsOf(db.details, claimId);
    var row := SummaryRow(db.claims[claimId], ds);
    assert SummaryOf(db, claimId).row == row;
    assert row[7] == Plain(JoinedOrDash(Present(CptCodesOf(ds))));
    assert row[8] == Plain(JoinedOrDash(Present(DenialReasonsOf(ds))));
    GatheredColumn(CptCodesOf(ds));
    GatheredColumn(DenialReasonsOf(ds));
  }

  /** A missing or zero amount is written as `$0.00`, any other as itself. */
  lemma SummaryAmounts(c: Claim, ds: seq<Detail>)
    requires DatesValid(c)
    ensures var row := SummaryRow(c, ds);
      && (c.billedAmount.None? || IsZero(c.billedAmount.value) ==> row[5] == Dollars(Zero))
      && (c.billedAmount.Some? && !IsZero(c.billedAmount.value) ==> row[5] == Dollars(c.billedAmount.value))
      && (c.paidAmount.None? || IsZero(c.paidAmount.value) ==> row[6] == Dollars(Zero))
      && (c.paidAmount.Some? && !IsZero(c.paidAmount.value) ==> row[6] == Dollars(c.paidAmount.value))
  {
  }
}
