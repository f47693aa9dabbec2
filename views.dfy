/**
 * The read-only rules of the backend's claim pages in
 * `backend/claims/views.py`: the claim list filter and order, and the CSV
 * export of one claim (its file name, CPT-code clean-up and row layout).
 */
module Views {
  import opened Wrappers
  import opened Text
  import opened Values
  import opened Bulk
  import opened Models

  /** One character of the file-name slug: alphanumerics lower-cased, anything else a dash. */
  function SlugChar(c: char): (r: char)
    ensures r == '-' || IsLower(r) || IsDigit(r)
  {
    if IsAlnum(c) then LowerChar(c) else '-'
  }

  function SlugChars(s: string): (r: string)
    ensures |r| == |s| && forall i :: 0 <= i < |s| ==> r[i] == SlugChar(s[i])
  {
    if |s| == 0 then "" else SlugChars(s[..|s| - 1]) + [SlugChar(s[|s| - 1])]
  }

  /** The patient part of the export file name; a missing or empty name reads `patient`. */
  function Slug(name: Option<string>): string
  {
    var base := Strip(if name.None? || name.value == "" then "patient" else name.value);
    Join(NonEmpty(Split(SlugChars(base), '-')), "-")
  }

  /** `f"{claim_id}-{safe_patient}.csv"`. */
  function ExportFilename(claimId: int, name: Option<string>): string
  {
    IntToString(claimId) + "-" + Slug(name) + ".csv"
  }

  /** The characters a slug is made of. */
  predicate SlugAlphabet(c: char) { c == '-' || IsLower(c) || IsDigit(c) }

  /** Lower-case letters, digits and single dashes, with no dash at either end. */
  predicate SlugShaped(r: string)
  {
    && (forall i :: 0 <= i < |r| ==> SlugAlphabet(r[i]))
    && (|r| == 0 || (r[0] != '-' && r[|r| - 1] != '-'))
    && (forall i :: 0 <= i < |r| - 1 ==> r[i] != '-' || r[i + 1] != '-')
  }

  /** Text made of slug characters only. */
  predicate AllSlug(p: string)
  {
    forall j :: 0 <= j < |p| ==> SlugAlphabet(p[j])
  }

  /** A piece of a slug between two dashes: not empty, no dash, slug characters only. */
  predicate Piece(p: string)
  {
    p != "" && '-' !in p && AllSlug(p)
  }

  /** The pieces of a split of slug characters are made of slug characters. */
  lemma {:induction false} SplitAllSlug(s: string, sep: char)
    requires AllSlug(s)
    ensures forall i :: 0 <= i < |Split(s, sep)| ==> AllSlug(Split(s, sep)[i])
    decreases |s|
  {
    if |s| > 0 {
      assert AllSlug(s[1..]) by {
        assert forall j :: 0 <= j < |s| - 1 ==> s[1..][j] == s[j + 1];
      }
      SplitAllSlug(s[1..], sep);
      var rest := Split(s[1..], sep);
      if s[0] != sep {
        var head := [s[0]] + rest[0];
        assert AllSlug(head) by {
          assert forall j :: 1 <= j < |head| ==> head[j] == rest[0][j - 1];
        }
        assert Split(s, sep) == [head] + rest[1..];
        assert forall i :: 1 <= i < |Split(s, sep)| ==> Split(s, sep)[i] == rest[i];
      } else {
        assert Split(s, sep) == [""] + rest;
      }
    }
  }

  /** Dropping the empty parts keeps any property every part has. */
  lemma {:induction false} NonEmptyKeeps(parts: seq<string>, P: string -> bool)
    requires forall i :: 0 <= i < |parts| ==> P(parts[i])
    ensures forall i :: 0 <= i < |NonEmpty(parts)| ==> P(NonEmpty(parts)[i])
    decreases |parts|
  {
    if |parts| > 0 {
      NonEmptyKeeps(parts[1..], P);
    }
  }

  /** A piece, a dash and a slug make a slug. */
  lemma DashJoinShaped(head: string, tail: string)
    requires Piece(head) && SlugShaped(tail) && tail != ""
    ensures SlugShaped(head + "-" + tail)
  {
    var r := head + "-" + tail;
    assert forall i :: 0 <= i < |head| ==> r[i] == head[i];
    assert r[|head|] == '-';
    assert forall i :: |head| < i < |r| ==> r[i] == tail[i - |head| - 1];
    assert forall i :: 0 <= i < |head| ==> head[i] != '-';
  }

  /** Pieces joined with dashes are shaped like a slug. */
  lemma {:induction false} JoinSlugShaped(parts: seq<string>)
    requires forall i :: 0 <= i < |parts| ==> Piece(parts[i])
    ensures SlugShaped(Join(parts, "-"))
    ensures |parts| > 0 ==> Join(parts, "-") != ""
    decreases |parts|
  {
    if |parts| > 1 {
      JoinSlugShaped(parts[1..]);
      DashJoinShaped(parts[0], Join(parts[1..], "-"));
    } else if |parts| == 1 {
      assert Join(parts, "-") == parts[0];
    }
  }

  /** A join starts with its first piece. */
  lemma JoinHead(parts: seq<string>, sep: string)
    requires |parts| > 0 && parts[0] != ""
    ensures |Join(parts, sep)| > 0 && Join(parts, sep)[0] == parts[0][0]
  {
  }

  /**
   * The slug is made of lower-case letters, digits and dashes, with no dash
   * at either end and never two dashes in a row.
   */
  lemma SlugIsShaped(name: Option<string>)
    ensures SlugShaped(Slug(name))
  {
    var base := Strip(if name.None? || name.value == "" then "patient" else name.value);
    var chars := SlugChars(base);
    var pieces := Split(chars, '-');
    SplitAllSlug(chars, '-');
    assert forall i :: 0 <= i < |pieces| ==> '-' !in pieces[i] && AllSlug(pieces[i]);
    NonEmptyKeeps(pieces, p => '-' !in p && AllSlug(p));
    var parts := NonEmpty(pieces);
    assert forall i :: 0 <= i < |parts| ==> Piece(parts[i]);
    JoinSlugShaped(parts);
  }

  /** A name already made of lower-case letters and digits is its own slug. */
  lemma SlugOfPlainName(s: string)
    requires s != "" && forall i :: 0 <= i < |s| ==> IsLower(s[i]) || IsDigit(s[i])
    ensures Slug(Some(s)) == s
  {
    StripUnchanged(s);
    assert SlugChars(s) == s;
    SplitNoSeparator(s, '-');
    assert NonEmpty([s]) == [s];
  }

  /** A missing or empty patient name gives `patient`. */
  lemma SlugDefault()
    ensures Slug(None) == "patient" && Slug(Some("")) == "patient"
  {
    SlugOfPlainName("patient");
  }

  /** Splitting text made of separators only gives empty pieces. */
  lemma {:induction false} SplitSeparatorsOnly(s: string, sep: char)
    requires forall i :: 0 <= i < |s| ==> s[i] == sep
    ensures forall i :: 0 <= i < |Split(s, sep)| ==> Split(s, sep)[i] == ""
    decreases |s|
  {
    if |s| > 0 {
      SplitSeparatorsOnly(s[1..], sep);
      assert Split(s, sep) == [""] + Split(s[1..], sep);
    }
  }

  /**
   * A name with no letter or digit has an empty slug, so its export is
   * named `<id>-.csv`; the `patient` default covers only a missing or
   * empty name.
   */
  lemma SlugWithoutAlnum(id: int, s: string)
    requires s != "" && forall i :: 0 <= i < |s| ==> !IsAlnum(s[i])
    ensures Slug(Some(s)) == ""
    ensures ExportFilename(id, Some(s)) == IntToString(id) + "-.csv"
  {
    var base := Strip(s);
    StripWithoutAlnum(s);
    var chars := SlugChars(base);
    assert forall i :: 0 <= i < |chars| ==> chars[i] == '-';
    SplitSeparatorsOnly(chars, '-');
    NonEmptyOfBlanks(Split(chars, '-'));
  }

  /** Stripping keeps a subrange of the text, so no letter or digit appears. */
  lemma StripWithoutAlnum(s: string)
    requires forall i :: 0 <= i < |s| ==> !IsAlnum(s[i])
    ensures forall i :: 0 <= i < |Strip(s)| ==> !IsAlnum(Strip(s)[i])
  {
    var t := TrimStart(s, IsSpace);
    assert forall i :: 0 <= i < |t| ==> t[i] == s[|s| - |t| + i];
    var u := TrimEnd(t, IsSpace);
    assert forall i :: 0 <= i < |u| ==> u[i] == t[i];
  }

  /** Keeping the non-empty pieces of empty pieces keeps nothing. */
  lemma {:induction false} NonEmptyOfBlanks(parts: seq<string>)
    requires forall i :: 0 <= i < |parts| ==> parts[i] == ""
    ensures NonEmpty(parts) == []
    decreases |parts|
  {
    if |parts| > 0 {
      NonEmptyOfBlanks(parts[1..]);
    }
  }

  /** `p.strip("[]'\"")`: the characters dropped at the ends of a CPT code. */
  predicate CodeJunk(c: char) { c == '[' || c == ']' || c == '\'' || c == '"' }

  /** `p.strip().strip("[]'\"")`. */
  function CleanCode(p: string): string
  {
    Trim(Strip(p), CodeJunk)
  }

  function CleanCodes(parts: seq<string>): (r: seq<string>)
    ensures |r| == |parts| && forall i :: 0 <= i < |parts| ==> r[i] == CleanCode(parts[i])
  {
    seq(|parts|, i requires 0 <= i < |parts| => CleanCode(parts[i]))
  }

  /** The CPT column of a detail row: codes split on commas, cleaned, empty ones dropped, joined with `"; "`; `-` when none remain. */
  function NormalizeCpt(raw: Option<string>): string
  {
    var codes := if raw.None? then "" else raw.value;
    if codes == "" then "-"
    else
      var parts := NonEmpty(CleanCodes(Split(codes, ',')));
      if |parts| == 0 then "-" else Join(parts, "; ")
  }

  /** The CPT column is never empty. */
  lemma NormalizeCptNonEmpty(raw: Option<string>)
    ensures NormalizeCpt(raw) != ""
  {
    var codes := if raw.None? then "" else raw.value;
    if codes != "" {
      var parts := NonEmpty(CleanCodes(Split(codes, ',')));
      if |parts| > 0 {
        JoinHead(parts, "; ");
      }
    }
  }

  /** Text whose ends are not dropped is left alone by `strip`. */
  lemma TrimUnchanged(s: string, drop: char -> bool)
    requires |s| > 0 && !drop(s[0]) && !drop(s[|s| - 1])
    ensures Trim(s, drop) == s
  {
    assert TrimStart(s, drop) == s;
  }

  /** A code the clean-up leaves as it is: not empty, no comma, and no blank or bracket or quote at its ends. */
  predicate CleanCodeText(p: string)
  {
    p != "" && ',' !in p && !IsSpace(p[0]) && !IsSpace(p[|p| - 1]) && !CodeJunk(p[0]) && !CodeJunk(p[|p| - 1])
  }

  /** Splitting a join on its one-character separator gives back the pieces. */
  lemma {:induction false} SplitJoin(parts: seq<string>, sep: char)
    requires |parts| > 0 && forall i :: 0 <= i < |parts| ==> sep !in parts[i]
    ensures Split(Join(parts, [sep]), sep) == parts
    decreases |parts|
  {
    if |parts| == 1 {
      SplitNoSeparator(parts[0], sep);
    } else {
      SplitJoin(parts[1..], sep);
      assert Join(parts, [sep]) == parts[0] + [sep] + Join(parts[1..], [sep]);
      SplitAtFirst(parts[0], Join(parts[1..], [sep]), sep);
      assert [parts[0]] + parts[1..] == parts;
    }
  }

  lemma {:induction false} NonEmptyUnchanged(parts: seq<string>)
    requires forall i :: 0 <= i < |parts| ==> parts[i] != ""
    ensures NonEmpty(parts) == parts
    decreases |parts|
  {
    if |parts| > 0 {
      NonEmptyUnchanged(parts[1..]);
      assert [parts[0]] + parts[1..] == parts;
    }
  }

  lemma CleanCodesUnchanged(codes: seq<string>)
    requires forall i :: 0 <= i < |codes| ==> CleanCodeText(codes[i])
    ensures CleanCodes(codes) == codes
  {
    forall i | 0 <= i < |codes| ensures CleanCode(codes[i]) == codes[i] {
      StripUnchanged(codes[i]);
      TrimUnchanged(codes[i], CodeJunk);
    }
  }

  /** Clean codes written with commas come out of the CPT column joined with `"; "`. */
  lemma NormalizeCptOfCodes(codes: seq<string>)
    requires |codes| > 0 && forall i :: 0 <= i < |codes| ==> CleanCodeText(codes[i])
    ensures NormalizeCpt(Some(Join(codes, ","))) == Join(codes, "; ")
  {
    var text := Join(codes, ",");
    assert text != "" by {
      JoinHead(codes, ",");
    }
    assert Split(text, ',') == codes by {
      SplitJoin(codes, ',');
    }
    CleanCodesUnchanged(codes);
    assert NonEmpty(codes) == codes by {
      NonEmptyUnchanged(codes);
    }
  }

  // ---------------------------------------------------------------- ordering

  predicate Increasing(ids: seq<int>)
  {
    forall i, j :: 0 <= i < j < |ids| ==> ids[i] < ids[j]
  }

  lemma HasMember(s: set<int>)
    requires s != {}
    ensures exists m :: m in s
  {
    if forall x :: x !in s {
      assert false;
    }
  }

  lemma {:induction false} MinExists(s: set<int>)
    requires s != {}
    ensures exists m :: m in s && forall x :: x in s ==> m <= x
    decreases |s|
  {
    HasMember(s);
    var y :| y in s;
    var rest := s - {y};
    if rest == {} {
      assert forall x :: x in s ==> x == y by {
        forall x | x in s ensures x == y {
          assert x !in rest;
        }
      }
      assert y in s && forall x :: x in s ==> y <= x;
    } else {
      MinExists(rest);
      var m :| m in rest && forall x :: x in rest ==> m <= x;
      var least := if y < m then y else m;
      forall x | x in s ensures least <= x {
        if x != y {
          assert x in rest;
        }
      }
      assert least in s;
    }
  }

  /** The smallest key of a non-empty set. */
  function Least(s: set<int>): (m: int)
    requires s != {}
    ensures m in s && forall x :: x in s ==> m <= x
  {
    MinExists(s);
    var m :| m in s && forall x :: x in s ==> m <= x;
    m
  }

  /** `order_by('id')`: the keys in ascending order. */
  function Ascending(s: set<int>): (r: seq<int>)
    ensures Increasing(r) && |r| == |s|
    ensures forall i :: 0 <= i < |r| ==> r[i] in s
    ensures forall k :: k in s ==> k in r
    decreases |s|
  {
    if s == {} then []
    else
      var m := Least(s);
      var rest := Ascending(s - {m});
      PrependLeast(s, m, rest);
      [m] + rest
  }

  /** Putting the least key in front of the ascending rest gives the ascending whole. */
  lemma PrependLeast(s: set<int>, m: int, rest: seq<int>)
    requires m in s && forall x :: x in s ==> m <= x
    requires Increasing(rest) && |rest| == |s - {m}|
    requires forall i :: 0 <= i < |rest| ==> rest[i] in s - {m}
    requires forall k :: k in s - {m} ==> k in rest
    ensures Increasing([m] + rest) && |[m] + rest| == |s|
    ensures forall i :: 0 <= i < |[m] + rest| ==> ([m] + rest)[i] in s
    ensures forall k :: k in s ==> k in [m] + rest
  {
    var r := [m] + rest;
    forall i, j | 0 <= i < j < |r| ensures r[i] < r[j] {
      assert r[j] == rest[j - 1] && rest[j - 1] in s - {m};
      if i > 0 {
        assert r[i] == rest[i - 1];
      }
    }
    forall k | k in s ensures k in r {
      if k != m {
        assert k in s - {m};
      }
    }
  }

  // ---------------------------------------------------------------- export

  /** A CSV cell: text as written, an integer id, or an amount written with two decimals. */
  datatype Cell = Text(s: string) | Number(n: int) | Money(amount: Decimal)

  /** `value or '-'`. */
  function OrDash(s: Option<string>): (r: string)
    ensures r != ""
    ensures r == "-" <==> s.None? || s.value == "" || s.value == "-"
    ensures s.Some? && s.value != "" ==> r == s.value
  {
    if s.None? || s.value == "" then "-" else s.value
  }

  /** `float(amount or 0)`: a missing amount is written as zero. */
  function AmountOrZero(a: Option<Decimal>): (r: Decimal)
    ensures a.None? || IsZero(a.value) ==> r == Zero
    ensures a.Some? && !IsZero(a.value) ==> r == a.value
  {
    if a.None? || IsZero(a.value) then Zero else a.value
  }

  /** `discharge_date.strftime('%m/%d/%Y')`, or `-` when there is none. */
  function DateOrDash(dd: DischargeDate): (r: string)
    requires dd.OnDate? ==> ValidDate(dd.date)
  {
    match dd
    case NoDate => "-"
    case OnDate(d) => UsText(d)
    case DateText(t) => OrDash(Some(t))
  }

  /** The column names of the export. */
  const Header: seq<string> := [
    "Claim ID", "Patient Name", "Insurer", "Status", "Discharge Date",
    "Billed Amount", "Paid Amount", "Detail ID", "CPT Codes", "Denial Reason"]

  /** The claim columns every row of the export repeats. */
  function ClaimCells(c: Claim): (r: seq<Cell>)
    requires DatesValid(c)
  {
    [Number(c.id), Text(OrDash(c.patientName)), Text(OrDash(c.insurerName)), Text(OrDash(c.status)),
     Text(DateOrDash(c.dischargeDate)), Money(AmountOrZero(c.billedAmount)), Money(AmountOrZero(c.paidAmount))]
  }

  /** The detail columns of one row. */
  function DetailCells(d: Detail): seq<Cell>
  {
    [Number(d.id), Text(NormalizeCpt(d.cptCodes)), Text(OrDash(d.denialReason))]
  }

  /** The detail columns of the one row written when the claim has no details. */
  const NoDetailCells: seq<Cell> := [Text("-"), Text("-"), Text("-")]

  /** The keys of the details of claim `claimId`. */
  function DetailIds(details: map<int, Detail>, claimId: int): set<int>
  {
    set k | k in details && details[k].claimId == claimId
  }

  /** `ClaimDetail.objects.filter(claim_id=claim_id).order_by('id')`. */
  function DetailsOf(details: map<int, Detail>, claimId: int): (r: seq<Detail>)
    ensures var ids := Ascending(DetailIds(details, claimId));
      |r| == |ids| && forall i :: 0 <= i < |r| ==> ids[i] in details && r[i] == details[ids[i]] && r[i].claimId == claimId
  {
    var ids := Ascending(DetailIds(details, claimId));
    seq(|ids|, i requires 0 <= i < |ids| => details[ids[i]])
  }

  /** The rows of a claim's export: one per detail, or one of dashes when there are none. */
  function Rows(meta: seq<Cell>, ds: seq<Detail>): (rows: seq<seq<Cell>>)
    ensures |ds| == 0 ==> rows == [meta + NoDetailCells]
    ensures |ds| > 0 ==> |rows| == |ds| && forall i :: 0 <= i < |ds| ==> rows[i] == meta + DetailCells(ds[i])
  {
    if |ds| == 0 then [meta + NoDetailCells]
    else seq(|ds|, i requires 0 <= i < |ds| => meta + DetailCells(ds[i]))
  }

  /** The CSV file of one claim, or the 404 of `get_object_or_404`. */
  datatype Export = NotFound | Csv(filename: string, header: seq<string>, rows: seq<seq<Cell>>)

  /** What the export of claim `claimId` is. */
  function ExportOf(db: Db, claimId: int): (r: Export)
    requires claimId in db.claims ==> DatesValid(db.claims[claimId])
  {
    if claimId !in db.claims then NotFound
    else
      var c := db.claims[claimId];
      Csv(ExportFilename(claimId, c.patientName), Header, Rows(ClaimCells(c), DetailsOf(db.details, claimId)))
  }

  /** The loop of the export view that writes one row per detail, or one row of dashes. */
  method WriteRows(meta: seq<Cell>, ds: seq<Detail>) returns (rows: seq<seq<Cell>>)
    ensures rows == Rows(meta, ds)
  {
    if |ds| == 0 {
      return [meta + NoDetailCells];
    }
    rows := [];
    var i := 0;
    while i < |ds|
      invariant 0 <= i <= |ds|
      invariant |rows| == i
      invariant forall j :: 0 <= j < i ==> rows[j] == meta + DetailCells(ds[j])
    {
      rows := rows + [meta + DetailCells(ds[i])];
      i := i + 1;
    }
  }

  /** `claim_detail(request, claim_id)` with `?export=csv`: one row per detail, in id order. */
  method ExportClaim(db: Db, claimId: int) returns (r: Export)
    requires claimId in db.claims ==> DatesValid(db.claims[claimId])
    ensures r == ExportOf(db, claimId)
  {
    if claimId !in db.claims {
      return NotFound;
    }
    var claim := db.claims[claimId];
    var rows := WriteRows(ClaimCells(claim), DetailsOf(db.details, claimId));
    r := Csv(ExportFilename(claimId, claim.patientName), Header, rows);
  }

  /**
   * A missing claim is a 404; otherwise every row has one cell per column
   * and starts with the claim's own columns, and a claim without details
   * gets one row of dashes.
   */
  lemma ExportShape(db: Db, claimId: int)
    requires claimId in db.claims ==> DatesValid(db.claims[claimId])
    ensures ExportOf(db, claimId).NotFound? <==> claimId !in db.claims
    ensures var r := ExportOf(db, claimId);
      r.Csv? ==>
        && r.header == Header
        && r.filename == ExportFilename(claimId, db.claims[claimId].patientName)
        && |r.rows| >= 1
        && (forall i :: 0 <= i < |r.rows| ==> |r.rows[i]| == |Header| && r.rows[i][..7] == ClaimCells(db.claims[claimId]))
    ensures var r := ExportOf(db, claimId);
      r.Csv? && DetailsOf(db.details, claimId) == [] ==> r.rows == [ClaimCells(db.claims[claimId]) + NoDetailCells]
  {
    if claimId in db.claims {
      var meta := ClaimCells(db.claims[claimId]);
      var dq := DetailsOf(db.details, claimId);
      var rows := Rows(meta, dq);
      forall i | 0 <= i < |rows| ensures |rows[i]| == |Header| && rows[i][..7] == meta {
        if |dq| == 0 {
          assert rows[i] == meta + NoDetailCells;
        } else {
          assert rows[i] == meta + DetailCells(dq[i]);
        }
      }
    }
  }

  /**
   * With details, the export has one row per detail of the claim, each
   * detail exactly once, in ascending id order.
   */
  lemma ExportDetailOrder(db: Db, claimId: int)
    requires claimId in db.claims && DatesValid(db.claims[claimId])
    requires KeyedBy(db.details, DetailKey)
    ensures var r := ExportOf(db, claimId);
      var ds := DetailIds(db.details, claimId);
      ds != {} ==>
        && |r.rows| == |ds|
        && (forall i :: 0 <= i < |r.rows| ==> r.rows[i][7].Number? && r.rows[i][7].n in ds)
        && (forall k :: k in ds ==> exists i :: 0 <= i < |r.rows| && r.rows[i][7] == Number(k))
        && (forall i, j :: 0 <= i < j < |r.rows| ==> r.rows[i][7].n < r.rows[j][7].n)
  {
    var ds := DetailIds(db.details, claimId);
    if ds != {} {
      var ids := Ascending(ds);
      var dq := DetailsOf(db.details, claimId);
      var meta := ClaimCells(db.claims[claimId]);
      assert forall i :: 0 <= i < |dq| ==> dq[i].id == ids[i] by {
        forall i | 0 <= i < |dq| ensures dq[i].id == ids[i] {
          assert dq[i] == db.details[ids[i]];
        }
      }
      assert |meta| == 7;
      assert ExportOf(db, claimId).rows == Rows(meta, dq);
      RowsFollowIds(meta, dq, ids, ds);
    }
  }

  lemma RowsFollowIds(meta: seq<Cell>, dq: seq<Detail>, ids: seq<int>, ds: set<int>)
    requires |dq| == |ids| == |ds| > 0 && Increasing(ids)
    requires forall i :: 0 <= i < |dq| ==> dq[i].id == ids[i] && ids[i] in ds
    requires forall k :: k in ds ==> k in ids
    ensures var rows := Rows(meta, dq);
      && |rows| == |ds|
      && (forall i :: 0 <= i < |rows| ==> rows[i][|meta|] == Number(ids[i]))
      && (forall i :: 0 <= i < |rows| ==> rows[i][|meta|].Number? && rows[i][|meta|].n in ds)
      && (forall k :: k in ds ==> exists i :: 0 <= i < |rows| && rows[i][|meta|] == Number(k))
      && (forall i, j :: 0 <= i < j < |rows| ==> rows[i][|meta|].n < rows[j][|meta|].n)
  {
    var rows := Rows(meta, dq);
    forall i | 0 <= i < |rows| ensures rows[i][|meta|] == Number(ids[i]) {
      assert rows[i] == meta + DetailCells(dq[i]);
    }
    forall k | k in ds ensures exists i :: 0 <= i < |rows| && rows[i][|meta|] == Number(k) {
      var i :| 0 <= i < |ids| && ids[i] == k;
      assert rows[i][|meta|] == Number(k);
    }
  }

  // ---------------------------------------------------------------- claim list

  /** `field__icontains=q`: a NULL field never matches. */
  predicate ContainsIgnoringCase(field: Option<string>, q: string)
  {
    field.Some? && Contains(Lower(field.value), Lower(q))
  }

  /** The three filters of the claim list; an empty filter lets every claim through. */
  predicate Matches(c: Claim, search: string, status: string, policy: string)
  {
    && (search == ""
        || ContainsIgnoringCase(Some(IntToString(c.id)), search)
        || ContainsIgnoringCase(c.patientName, search)
        || ContainsIgnoringCase(c.insurerName, search))
    && (status == "" || c.status == Some(status))
    && (policy == "" || c.insurerName == Some(policy))
  }

  /** `claim_list`: the ids of the claims that pass the filters, ordered by id. */
  function ListClaims(claims: map<int, Claim>, search: string, status: string, policy: string): (r: seq<int>)
    ensures Increasing(r)
    ensures forall i :: 0 <= i < |r| ==> r[i] in claims && Matches(claims[r[i]], search, status, policy)
    ensures forall k :: k in claims && Matches(claims[k], search, status, policy) ==> k in r
  {
    Ascending(set k | k in claims && Matches(claims[k], search, status, policy))
  }

  lemma {:induction false} LowerTwice(s: string)
    ensures Lower(Lower(s)) == Lower(s)
  {
    assert forall i :: 0 <= i < |s| ==> LowerChar(LowerChar(s[i])) == LowerChar(s[i]);
  }

  /** The search does not depend on the case the user typed it in. */
  lemma SearchIgnoresCase(c: Claim, search: string, status: string, policy: string)
    ensures Matches(c, Lower(search), status, policy) <==> Matches(c, search, status, policy)
  {
    LowerTwice(search);
  }

  /** With no search and no filters every claim is listed, in id order. */
  lemma EmptyFiltersListAll(claims: map<int, Claim>)
    ensures ListClaims(claims, "", "", "") == Ascending(claims.Keys)
  {
    assert (set k | k in claims && Matches(claims[k], "", "", "")) == claims.Keys;
  }

  lemma ContainsItself(s: string)
    ensures Contains(s, s)
  {
  }

  lemma {:induction false} LowerOfDigits(s: string)
    requires forall i :: 0 <= i < |s| ==> s[i] == '-' || IsDigit(s[i])
    ensures Lower(s) == s
  {
  }

  lemma IntToStringChars(k: int)
    ensures forall i :: 0 <= i < |IntToString(k)| ==> IntToString(k)[i] == '-' || IsDigit(IntToString(k)[i])
  {
    if k < 0 {
      var d := NatToString(-k);
      assert forall i :: 1 <= i < |"-" + d| ==> ("-" + d)[i] == d[i - 1];
    }
  }

  /** Searching for a claim's id finds that claim. */
  lemma SearchFindsId(claims: map<int, Claim>, k: int, status: string, policy: string)
    requires k in claims && claims[k].id == k
    requires Matches(claims[k], "", status, policy)
    ensures k in ListClaims(claims, IntToString(k), status, policy)
  {
    var t := IntToString(k);
    IntToStringChars(k);
    LowerOfDigits(t);
    ContainsItself(t);
  }
}
