/**
 * The four record types of the claims application, the tables that hold
 * them, and the rules the schema imposes on them: one record per primary
 * key, the cascade from a claim to its flags and notes, and the SET_NULL
 * of a flag's resolver when that user goes away.
 */
module Models {
  import opened Wrappers
  import opened Text
  import opened Values
  import opened Bulk

  /** A CSV row as `csv.DictReader` yields it; a column the row is too short for is absent. */
  type Row = map<string, string>

  /** `row.get(key)`. */
  function Field(row: Row, key: string): Option<string>
  {
    if key in row then Some(row[key]) else None
  }

  /** The field is `None` or `''`, the two values of it Python treats as false. */
  predicate Blank(row: Row, key: string)
  {
    key !in row || row[key] == ""
  }

  /** `row.get(key) or default`. */
  function FieldOr(row: Row, key: string, default: string): string
  {
    if Blank(row, key) then default else row[key]
  }

  /** `int(row[key])`: a missing or blank field raises as surely as text that is not an integer. */
  function IdOf(row: Row, key: string): Option<int>
  {
    if key in row then ParseInt(row[key]) else None
  }

  /** A CSV file a loader looks for: absent, present but failing to open or decode, or its rows. */
  datatype CsvInput = Missing | Unreadable | Present(rows: seq<Row>)

  type UserId = int

  /** A timestamp, as `timezone.now()` hands it over. */
  type Time = int

  /**
   * What `discharge_date` holds: nothing, a calendar date, or (from the
   * loaders that hand the CSV text to the ORM unconverted) the raw text.
   */
  datatype DischargeDate = NoDate | OnDate(date: Date) | DateText(text: string)

  /** A `ClaimList` row (table `claim_list`). */
  datatype Claim = Claim(
    id: int,
    patientName: Option<string>,
    billedAmount: Option<Decimal>,
    paidAmount: Option<Decimal>,
    status: Option<string>,
    insurerName: Option<string>,
    dischargeDate: DischargeDate)

  /** A `ClaimDetail` row (table `claim_detail`); `claimId` is a plain integer, not a foreign key. */
  datatype Detail = Detail(id: int, claimId: int, denialReason: Option<string>, cptCodes: Option<string>)

  /** A `ClaimFlag` row. */
  datatype Flag = Flag(
    id: int,
    claimId: int,
    user: UserId,
    flaggedAt: Time,
    reason: Option<string>,
    isResolved: bool,
    resolvedAt: Option<Time>,
    resolvedBy: Option<UserId>)

  /** A `ClaimNote` row. */
  datatype Note = Note(id: int, claimId: int, user: UserId, text: string, createdAt: Time, updatedAt: Time)

  function ClaimKey(c: Claim): int { c.id }
  function DetailKey(d: Detail): int { d.id }
  function FlagKey(f: Flag): int { f.id }
  function NoteKey(n: Note): int { n.id }

  /** A flag is resolved exactly when it has a resolution time, and an open flag has no resolver. */
  predicate ValidFlag(f: Flag)
  {
    (f.isResolved <==> f.resolvedAt.Some?) && (!f.isResolved ==> f.resolvedBy.None?)
  }

  /** The flag `ClaimFlag.objects.create(...)` makes: `is_resolved` defaults to false. */
  function NewFlag(id: int, claimId: int, user: UserId, reason: string, now: Time): (f: Flag)
    ensures ValidFlag(f) && !f.isResolved
    ensures f.id == id && f.claimId == claimId && f.user == user && f.reason == Some(reason)
  {
    Flag(id, claimId, user, now, Some(reason), false, None, None)
  }

  /** A discharge date that is a date at all is a real calendar date. */
  predicate DatesValid(c: Claim)
  {
    c.dischargeDate.OnDate? ==> ValidDate(c.dischargeDate.date)
  }

  /** How a CSV file of the data set writes an optional text: absent is the empty field. */
  function TextCell(s: Option<string>): string
  {
    match s
    case None => ""
    case Some(t) => t
  }

  /** How a CSV file of the data set writes an optional amount. */
  function AmountCell(a: Option<Decimal>): string
  {
    match a
    case None => ""
    case Some(d) => DecimalText(d)
  }

  /** The amount column reads back as the amount written; an absent amount is the empty field. */
  lemma AmountCellRoundTrip(a: Option<Decimal>)
    ensures a.None? ==> AmountCell(a) == ""
    ensures a.Some? ==> AmountCell(a) != "" && ParseDecimal(AmountCell(a)) == a
  {
    if a.Some? {
      ParseDecimalText(a.value);
    }
  }

  /** How a CSV file of the data set writes a discharge date: `YYYY-MM-DD`. */
  function DateCell(dd: DischargeDate): string
    requires dd.OnDate? ==> ValidDate(dd.date)
  {
    match dd
    case NoDate => ""
    case OnDate(d) => IsoText(d)
    case DateText(t) => t
  }

  /** The line of `claim_list_data.csv` that describes claim `c`. */
  function ClaimRow(c: Claim): Row
    requires DatesValid(c)
  {
    map["id" := IntToString(c.id),
        "patient_name" := TextCell(c.patientName),
        "billed_amount" := AmountCell(c.billedAmount),
        "paid_amount" := AmountCell(c.paidAmount),
        "status" := TextCell(c.status),
        "insurer_name" := TextCell(c.insurerName),
        "discharge_date" := DateCell(c.dischargeDate)]
  }

  /** The line of `claim_detail_data.csv` that describes detail `d`. */
  function DetailRow(d: Detail): Row
  {
    map["id" := IntToString(d.id),
        "claim_id" := IntToString(d.claimId),
        "denial_reason" := TextCell(d.denialReason),
        "cpt_codes" := TextCell(d.cptCodes)]
  }

  /** The cells of the line that describes claim `c`, column by column. */
  lemma ClaimRowCells(c: Claim)
    requires DatesValid(c)
    ensures "id" in ClaimRow(c) && ClaimRow(c)["id"] == IntToString(c.id)
    ensures "patient_name" in ClaimRow(c) && ClaimRow(c)["patient_name"] == TextCell(c.patientName)
    ensures "billed_amount" in ClaimRow(c) && ClaimRow(c)["billed_amount"] == AmountCell(c.billedAmount)
    ensures "paid_amount" in ClaimRow(c) && ClaimRow(c)["paid_amount"] == AmountCell(c.paidAmount)
    ensures "status" in ClaimRow(c) && ClaimRow(c)["status"] == TextCell(c.status)
    ensures "insurer_name" in ClaimRow(c) && ClaimRow(c)["insurer_name"] == TextCell(c.insurerName)
    ensures "discharge_date" in ClaimRow(c) && ClaimRow(c)["discharge_date"] == DateCell(c.dischargeDate)
  {
  }

  /** The cells of the line that describes detail `d`, column by column. */
  lemma DetailRowCells(d: Detail)
    ensures "id" in DetailRow(d) && DetailRow(d)["id"] == IntToString(d.id)
    ensures "claim_id" in DetailRow(d) && DetailRow(d)["claim_id"] == IntToString(d.claimId)
    ensures "denial_reason" in DetailRow(d) && DetailRow(d)["denial_reason"] == TextCell(d.denialReason)
    ensures "cpt_codes" in DetailRow(d) && DetailRow(d)["cpt_codes"] == TextCell(d.cptCodes)
  {
  }

  /** The four tables, with the AUTOINCREMENT counters of the two whose ids the database assigns. */
  datatype Db = Db(
    claims: map<int, Claim>,
    details: map<int, Detail>,
    flags: map<int, Flag>,
    notes: map<int, Note>,
    lastFlagId: nat,
    lastNoteId: nat)

  const EmptyDb := Db(map[], map[], map[], map[], 0, 0)

  /**
   * Primary keys hold their records, every flag and note belongs to an
   * existing claim (the foreign key), and assigned ids never pass the counters.
   */
  ghost predicate ValidDb(db: Db)
  {
    && KeyedBy(db.claims, ClaimKey)
    && KeyedBy(db.details, DetailKey)
    && KeyedBy(db.flags, FlagKey)
    && KeyedBy(db.notes, NoteKey)
    && (forall k :: k in db.flags ==> db.flags[k].claimId in db.claims && 0 < k <= db.lastFlagId && ValidFlag(db.flags[k]))
    && (forall k :: k in db.notes ==> db.notes[k].claimId in db.claims && 0 < k <= db.lastNoteId)
  }

  /** Storing a new note under the next id of a claim that exists keeps the database consistent. */
  lemma AddedNoteValid(db: Db, n: Note)
    requires ValidDb(db) && n.claimId in db.claims && n.id == db.lastNoteId + 1
    ensures ValidDb(db.(notes := db.notes[n.id := n], lastNoteId := n.id))
  {
    var notes := db.notes[n.id := n];
    forall k | k in notes ensures NoteKey(notes[k]) == k && notes[k].claimId in db.claims && 0 < k <= n.id {
      if k != n.id {
        assert k in db.notes;
      }
    }
  }

  /** Deleting the claims in `doomed`: CASCADE takes exactly their flags and notes along. */
  function DeleteClaims(db: Db, doomed: set<int>): (r: Db)
    ensures r.claims.Keys == db.claims.Keys - doomed
    ensures forall k :: k in r.flags <==> k in db.flags && db.flags[k].claimId !in doomed
    ensures forall k :: k in r.notes <==> k in db.notes && db.notes[k].claimId !in doomed
    ensures forall k :: k in r.claims ==> r.claims[k] == db.claims[k]
    ensures forall k :: k in r.flags ==> r.flags[k] == db.flags[k]
    ensures forall k :: k in r.notes ==> r.notes[k] == db.notes[k]
    ensures r.details == db.details && r.lastFlagId == db.lastFlagId && r.lastNoteId == db.lastNoteId
    ensures ValidDb(db) ==> ValidDb(r)
  {
    db.(claims := map k | k in db.claims && k !in doomed :: db.claims[k],
        flags := map k | k in db.flags && db.flags[k].claimId !in doomed :: db.flags[k],
        notes := map k | k in db.notes && db.notes[k].claimId !in doomed :: db.notes[k])
  }

  /** `ClaimList.objects.all().delete()`. */
  function ClearClaims(db: Db): Db
  {
    DeleteClaims(db, db.claims.Keys)
  }

  /** Emptying the claim table leaves no flag and no note behind, and touches nothing else. */
  lemma ClearClaimsWipesAnnotations(db: Db)
    requires ValidDb(db)
    ensures ClearClaims(db) == db.(claims := map[], flags := map[], notes := map[])
  {
    var r := ClearClaims(db);
    assert forall k :: k !in r.flags;
    assert forall k :: k !in r.notes;
  }

  /** `ClaimDetail.objects.all().delete()`: nothing refers to a detail, so nothing else goes. */
  function ClearDetails(db: Db): (r: Db)
    ensures r.details == map[]
    ensures r.claims == db.claims && r.flags == db.flags && r.notes == db.notes
    ensures r.lastFlagId == db.lastFlagId && r.lastNoteId == db.lastNoteId
    ensures ValidDb(db) ==> ValidDb(r)
  {
    db.(details := map[])
  }

  /** `ClaimList.objects.bulk_create(objs, ignore_conflicts=True)`. */
  function AddClaims(db: Db, objs: seq<Claim>): (r: Db)
    ensures r.claims.Keys == db.claims.Keys + KeysOf(objs, ClaimKey)
    ensures forall k :: k in db.claims ==> r.claims[k] == db.claims[k]
    ensures forall k :: k in KeysOf(objs, ClaimKey) && k !in db.claims ==> r.claims[k] == objs[FirstIndex(objs, ClaimKey, k)]
    ensures r.details == db.details && r.flags == db.flags && r.notes == db.notes
    ensures r.lastFlagId == db.lastFlagId && r.lastNoteId == db.lastNoteId
    ensures ValidDb(db) ==> ValidDb(r)
  {
    InsertIgnoringFirstWinsAll(db.claims, objs, ClaimKey);
    db.(claims := InsertIgnoring(db.claims, objs, ClaimKey))
  }

  /** `ClaimDetail.objects.bulk_create(objs, ignore_conflicts=True)`. */
  function AddDetails(db: Db, objs: seq<Detail>): (r: Db)
    ensures r.details.Keys == db.details.Keys + KeysOf(objs, DetailKey)
    ensures forall k :: k in db.details ==> r.details[k] == db.details[k]
    ensures forall k :: k in KeysOf(objs, DetailKey) && k !in db.details ==> r.details[k] == objs[FirstIndex(objs, DetailKey, k)]
    ensures r.claims == db.claims && r.flags == db.flags && r.notes == db.notes
    ensures r.lastFlagId == db.lastFlagId && r.lastNoteId == db.lastNoteId
    ensures ValidDb(db) ==> ValidDb(r)
  {
    InsertIgnoringFirstWinsAll(db.details, objs, DetailKey);
    db.(details := InsertIgnoring(db.details, objs, DetailKey))
  }

  /** The SET_NULL on `resolved_by`. */
  function ForgetResolver(f: Flag, u: UserId): Flag
  {
    if f.resolvedBy == Some(u) then f.(resolvedBy := None) else f
  }

  /**
   * Deleting user `u`: CASCADE removes the flags and notes `u` wrote, and
   * SET_NULL clears `u` as the resolver of the flags that stay.
   */
  function DeleteUser(db: Db, u: UserId): (r: Db)
    ensures forall k :: k in r.flags <==> k in db.flags && db.flags[k].user != u
    ensures forall k :: k in r.notes <==> k in db.notes && db.notes[k].user != u
    ensures forall k :: k in r.flags ==> r.flags[k].resolvedBy != Some(u)
    ensures forall k :: k in r.flags ==> r.flags[k] == ForgetResolver(db.flags[k], u)
    ensures forall k :: k in r.notes ==> r.notes[k] == db.notes[k]
    ensures r.claims == db.claims && r.details == db.details
    ensures r.lastFlagId == db.lastFlagId && r.lastNoteId == db.lastNoteId
    ensures ValidDb(db) ==> ValidDb(r)
  {
    db.(flags := map k | k in db.flags && db.flags[k].user != u :: ForgetResolver(db.flags[k], u),
        notes := map k | k in db.notes && db.notes[k].user != u :: db.notes[k])
  }

  /** A flag `u` resolved but did not raise survives `u`'s deletion, still resolved, with only its resolver cleared. */
  lemma DeleteUserKeepsResolvedFlag(db: Db, u: UserId, k: int)
    requires k in db.flags && db.flags[k].user != u && db.flags[k].resolvedBy == Some(u)
    ensures k in DeleteUser(db, u).flags
    ensures DeleteUser(db, u).flags[k] == db.flags[k].(resolvedBy := None)
    ensures DeleteUser(db, u).flags[k].isResolved == db.flags[k].isResolved
  {
  }

  /** How an f-string renders an optional text: `None` prints as "None". */
  function Show(s: Option<string>): string
  {
    match s
    case None => "None"
    case Some(t) => t
  }

  /** `ClaimList.__str__`. */
  function ClaimLabel(c: Claim): string
  {
    IntToString(c.id) + " - " + Show(c.patientName)
  }

  /** `ClaimDetail.__str__`. */
  function DetailLabel(d: Detail): string
  {
    IntToString(d.id) + " - Claim " + IntToString(d.claimId)
  }

  /** The `"<Kind> <id> - Claim <claim id>"` shape of the flag and note labels. */
  function AnnotationLabel(kind: string, id: int, claimId: int): string
  {
    kind + " " + IntToString(id) + " - Claim " + IntToString(claimId)
  }

  /** `ClaimFlag.__str__`. */
  function FlagLabel(f: Flag): string
  {
    AnnotationLabel("Flag", f.id, f.claimId)
  }

  /** `ClaimNote.__str__`. */
  function NoteLabel(n: Note): string
  {
    AnnotationLabel("Note", n.id, n.claimId)
  }

  /** A claim's label starts with its id, then " - ", then the patient name (or "None"). */
  lemma ClaimLabelParts(c: Claim)
    ensures var parts := Split(ClaimLabel(c), ' ');
      |parts| >= 3 && ParseInt(parts[0]) == Some(c.id) && parts[1] == "-" && Join(parts[2..], " ") == Show(c.patientName)
  {
    var a, name := IntToString(c.id), Show(c.patientName);
    var shown := ClaimLabel(c);
    assert shown == a + " " + "-" + " " + name by {
      assert " - " == " " + "-" + " ";
    }
    NoSpaceInIntToString(c.id);
    SpaceSeparated(a, "-", name, shown);
    var parts := Split(shown, ' ');
    LabelWords(a, name, parts);
    assert ParseInt(parts[0]) == Some(c.id) by {
      ParseIntOfIntToString(c.id);
    }
  }

  /** Reading `[a, "-"]` followed by the words of `name` back. */
  lemma LabelWords(a: string, name: string, parts: seq<string>)
    requires parts == [a, "-"] + Split(name, ' ')
    ensures |parts| >= 3 && parts[0] == a && parts[1] == "-" && Join(parts[2..], " ") == name
  {
    assert parts[2..] == Split(name, ' ');
    JoinSplit(name, ' ');
  }

  /** The words of `a b rest` when neither `a` nor `b` has a space. */
  lemma SpaceSeparated(a: string, b: string, rest: string, s: string)
    requires s == a + " " + b + " " + rest && ' ' !in a && ' ' !in b
    ensures Split(s, ' ') == [a, b] + Split(rest, ' ')
  {
    assert s == a + [' '] + (b + [' '] + rest);
    SplitAtFirst(a, b + [' '] + rest, ' ');
    SplitAtFirst(b, rest, ' ');
  }

  /** The words of `"Claim <id>"`. */
  lemma ClaimReference(id: int)
    ensures Split("Claim " + IntToString(id), ' ') == ["Claim", IntToString(id)]
  {
    var b := IntToString(id);
    NoSpaceInIntToString(id);
    assert "Claim " + b == "Claim" + [' '] + b;
    SplitAtFirst("Claim", b, ' ');
    SplitNoSeparator(b, ' ');
  }

  /** A detail's label is the words `<id> - Claim <claim id>`, so both ids can be read back from it. */
  lemma DetailLabelParts(d: Detail)
    ensures Split(DetailLabel(d), ' ') == [IntToString(d.id), "-", "Claim", IntToString(d.claimId)]
    ensures ParseInt(Split(DetailLabel(d), ' ')[0]) == Some(d.id)
    ensures ParseInt(Split(DetailLabel(d), ' ')[3]) == Some(d.claimId)
  {
    var a, b := IntToString(d.id), IntToString(d.claimId);
    NoSpaceInIntToString(d.id);
    var shown := DetailLabel(d);
    assert shown == a + " " + "-" + " " + ("Claim " + b);
    SpaceSeparated(a, "-", "Claim " + b, shown);
    ClaimReference(d.claimId);
    ParseIntOfIntToString(d.id);
    ParseIntOfIntToString(d.claimId);
  }

  /** Flag and note labels are the words `<Kind> <id> - Claim <claim id>`. */
  lemma AnnotationLabelParts(kind: string, id: int, claimId: int)
    requires ' ' !in kind
    ensures Split(AnnotationLabel(kind, id, claimId), ' ') == [kind, IntToString(id), "-", "Claim", IntToString(claimId)]
    ensures ParseInt(Split(AnnotationLabel(kind, id, claimId), ' ')[1]) == Some(id)
    ensures ParseInt(Split(AnnotationLabel(kind, id, claimId), ' ')[4]) == Some(claimId)
  {
    var a, b := IntToString(id), IntToString(claimId);
    NoSpaceInIntToString(id);
    var shown := AnnotationLabel(kind, id, claimId);
    var claimRef := "Claim " + b;
    var tail := "-" + [' '] + claimRef;
    var rest := a + [' '] + tail;
    assert shown == kind + [' '] + rest;
    SplitAtFirst(kind, rest, ' ');
    SplitAtFirst(a, tail, ' ');
    SplitAtFirst("-", claimRef, ' ');
    ClaimReference(claimId);
    var parts := Split(shown, ' ');
    assert parts == [kind, a, "-", "Claim", b];
    assert parts[1] == a && parts[4] == b;
    ParseIntOfIntToString(id);
    ParseIntOfIntToString(claimId);
  }

  /**
   * `ClaimDetail.claim_list`: `ClaimList.objects.filter(id=claim_id).first()`,
   * the claim with the detail's `claim_id`, or `None` when there is none.
   */
  function ClaimOf(d: Detail, claims: map<int, Claim>): (r: Option<Claim>)
    ensures KeyedBy(claims, ClaimKey) ==> (r.Some? <==> exists k :: k in claims && claims[k].id == d.claimId)
    ensures r.Some? ==> r.value in claims.Values
    ensures r.Some? && KeyedBy(claims, ClaimKey) ==> r.value.id == d.claimId
  {
    if d.claimId in claims then Some(claims[d.claimId]) else None
  }

  /** The Django database of the application: the four tables and their AUTOINCREMENT counters. */
  class ClaimDatabase {
    var claims: map<int, Claim>
    var details: map<int, Detail>
    var flags: map<int, Flag>
    var notes: map<int, Note>
    var lastFlagId: nat
    var lastNoteId: nat

    function State(): Db
      reads this
    {
      Db(claims, details, flags, notes, lastFlagId, lastNoteId)
    }

    ghost predicate Valid()
      reads this
    {
      ValidDb(State())
    }

    constructor ()
      ensures State() == EmptyDb && Valid()
    {
      claims, details, flags, notes := map[], map[], map[], map[];
      lastFlagId, lastNoteId := 0, 0;
    }

    /** `ClaimList.objects.all().delete()`, with its cascade. */
    method DeleteAllClaims()
      modifies this
      ensures State() == ClearClaims(old(State()))
    {
      var doomed := claims.Keys;
      flags := map k | k in flags && flags[k].claimId !in doomed :: flags[k];
      notes := map k | k in notes && notes[k].claimId !in doomed :: notes[k];
      claims := map[];
    }

    /** `ClaimDetail.objects.all().delete()`. */
    method DeleteAllDetails()
      modifies this
      ensures State() == ClearDetails(old(State()))
    {
      details := map[];
    }

    /** `ClaimList.objects.bulk_create(objs, ignore_conflicts=True)`. */
    method BulkCreateClaims(objs: seq<Claim>)
      modifies this
      ensures State() == AddClaims(old(State()), objs)
    {
      claims := InsertIgnoring(claims, objs, ClaimKey);
    }

    /** `ClaimDetail.objects.bulk_create(objs, ignore_conflicts=True)`. */
    method BulkCreateDetails(objs: seq<Detail>)
      modifies this
      ensures State() == AddDetails(old(State()), objs)
    {
      details := InsertIgnoring(details, objs, DetailKey);
    }

    /** The rollback at the end of a failed `transaction.atomic()` block. */
    method Restore(saved: Db)
      modifies this
      ensures State() == saved
    {
      claims, details, flags, notes := saved.claims, saved.details, saved.flags, saved.notes;
      lastFlagId, lastNoteId := saved.lastFlagId, saved.lastNoteId;
    }

    /** `ClaimFlag.objects.create(...)`: the next AUTOINCREMENT id. */
    method CreateFlag(claimId: int, user: UserId, reason: string, now: Time) returns (id: int)
      modifies this
      ensures id == old(lastFlagId) + 1
      ensures State() == old(State()).(flags := old(flags)[id := NewFlag(id, claimId, user, reason, now)], lastFlagId := id)
    {
      lastFlagId := lastFlagId + 1;
      id := lastFlagId;
      flags := flags[id := NewFlag(id, claimId, user, reason, now)];
    }

    /** `ClaimNote.objects.create(...)`: the next AUTOINCREMENT id, with `updated_at` set on save. */
    method CreateNote(claimId: int, user: UserId, text: string, now: Time) returns (id: int)
      modifies this
      ensures id == old(lastNoteId) + 1
      ensures State() == old(State()).(notes := old(notes)[id := Note(id, claimId, user, text, now, now)], lastNoteId := id)
    {
      lastNoteId := lastNoteId + 1;
      id := lastNoteId;
      notes := notes[id := Note(id, claimId, user, text, now, now)];
    }

    /** `flag.save()`. */
    method SaveFlag(f: Flag)
      modifies this
      ensures State() == old(State()).(flags := old(flags)[f.id := f])
    {
      flags := flags[f.id := f];
    }

    /** `note.save()`. */
    method SaveNote(n: Note)
      modifies this
      ensures State() == old(State()).(notes := old(notes)[n.id := n])
    {
      notes := notes[n.id := n];
    }

    /** `flag.delete()`. */
    method RemoveFlag(id: int)
      modifies this
      ensures State() == old(State()).(flags := old(flags) - {id})
    {
      flags := flags - {id};
    }

    /** `note.delete()`. */
    method RemoveNote(id: int)
      modifies this
      ensures State() == old(State()).(notes := old(notes) - {id})
    {
      notes := notes - {id};
    }
  }
}
