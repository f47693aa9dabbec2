/**
 * The request handlers of `backend/claims/views.py` that change flags and
 * notes (`flag_claim`, `add_note`, `resolve_flag`, `edit_note`,
 * `delete_note`, `delete_flag`) and the change-check endpoint
 * `api_check_changes`. The same handlers appear, with the same rules, in
 * the older `claims/views.py`.
 *
 * Each handler is a function from the database and the request to the new
 * database and the response, and a method over `ClaimDatabase` that does
 * what the view does and is proved to agree with that function.
 */
module Handlers {
  import opened Wrappers
  import opened Text
  import opened Bulk
  import opened Models
  import opened Monitor

  /** `request.user`, already logged in (`@login_required`). */
  datatype Requester = Requester(id: UserId, isSuperuser: bool)

  /** What a handler reads from the request; `now` is `timezone.now()`. */
  datatype Request = Request(isPost: bool, user: Requester, hx: bool, form: Row, now: Time)

  /**
   * A redirect to the claim's page, the HTMX partial of that page, the
   * edit form of a note, a 404 from `get_object_or_404`, or a 500 from an
   * exception the view does not catch.
   */
  datatype Response = Redirect(claimId: int) | Partial(claimId: int) | EditForm(noteId: int) | NotFound | ServerError

  datatype Outcome = Outcome(db: Db, response: Response)

  /** After a change the page is re-rendered for HTMX and redirected to otherwise. */
  function Back(req: Request, claimId: int): (r: Response)
    ensures r.Partial? <==> req.hx
    ensures r == Redirect(claimId) || r == Partial(claimId)
  {
    if req.hx then Partial(claimId) else Redirect(claimId)
  }

  /** `request.user == owner or request.user.is_superuser`. */
  predicate MayChange(user: Requester, owner: UserId)
  {
    user.id == owner || user.isSuperuser
  }

  /** `request.POST.get('note', '').strip()`. */
  function NoteText(req: Request): string
  {
    Strip(FieldOr(req.form, "note", ""))
  }

  // ---------------------------------------------------------------- flags

  /** `flag_claim`: a POST adds an open flag with the posted reason. */
  function FlagClaim(db: Db, claimId: int, req: Request): Outcome
  {
    if !req.isPost then Outcome(db, Redirect(claimId))
    else if claimId !in db.claims then Outcome(db, NotFound)
    else
      var id := db.lastFlagId + 1;
      var f := NewFlag(id, claimId, req.user.id, FieldOr(req.form, "reason", ""), req.now);
      Outcome(db.(flags := db.flags[id := f], lastFlagId := id), Back(req, claimId))
  }

  /** The resolution `resolve_flag` writes into an open flag. */
  function Resolved(f: Flag, req: Request): (r: Flag)
    requires !f.isResolved
    ensures ValidFlag(r) && r.isResolved
  {
    f.(isResolved := true, resolvedAt := Some(req.now), resolvedBy := Some(req.user.id))
  }

  /**
   * `resolve_flag`, as its authors evidently meant it: the flag is looked
   * up first, a GET redirects to its claim, and a POST resolves an open
   * flag and leaves a resolved one alone.
   */
  function ResolveFlag(db: Db, flagId: int, req: Request): Outcome
  {
    if flagId !in db.flags then Outcome(db, NotFound)
    else
      var f := db.flags[flagId];
      if !req.isPost then Outcome(db, Redirect(f.claimId))
      else if f.isResolved then Outcome(db, Back(req, f.claimId))
      else Outcome(db.(flags := db.flags[flagId := Resolved(f, req)]), Back(req, f.claimId))
  }

  /**
   * `resolve_flag` as written: outside the POST branch `flag` was never
   * bound, so `flag.claim.id` raises `UnboundLocalError` and the request
   * ends in a 500.
   */
  function ResolveFlagAsWritten(db: Db, flagId: int, req: Request): Outcome
  {
    if !req.isPost then Outcome(db, ServerError) else ResolveFlag(db, flagId, req)
  }

  /** `delete_flag` as evidently meant: only the flag's author or a superuser deletes it. */
  function DeleteFlag(db: Db, flagId: int, req: Request): Outcome
  {
    if flagId !in db.flags then Outcome(db, NotFound)
    else
      var f := db.flags[flagId];
      if req.isPost && MayChange(req.user, f.user) then Outcome(db.(flags := db.flags - {flagId}), Redirect(f.claimId))
      else Outcome(db, Redirect(f.claimId))
  }

  /** `delete_flag` as written: a request that is not a POST ends in `UnboundLocalError`. */
  function DeleteFlagAsWritten(db: Db, flagId: int, req: Request): Outcome
  {
    if !req.isPost then Outcome(db, ServerError) else DeleteFlag(db, flagId, req)
  }

  // ---------------------------------------------------------------- notes

  /** `add_note`: a POST with text left after stripping adds a note with that text. */
  function AddNote(db: Db, claimId: int, req: Request): Outcome
  {
    if !req.isPost then Outcome(db, Redirect(claimId))
    else if claimId !in db.claims then Outcome(db, NotFound)
    else if NoteText(req) == "" then Outcome(db, Back(req, claimId))
    else
      var id := db.lastNoteId + 1;
      var n := Note(id, claimId, req.user.id, NoteText(req), req.now, req.now);
      Outcome(db.(notes := db.notes[id := n], lastNoteId := id), Back(req, claimId))
  }

  /**
   * `edit_note`: the note is looked up before anything else, anyone but its
   * author and a superuser is sent back, a GET shows the form, and a POST
   * with text left after stripping replaces the text (`updated_at` is
   * `auto_now`).
   */
  function EditNote(db: Db, noteId: int, req: Request): Outcome
  {
    if noteId !in db.notes then Outcome(db, NotFound)
    else
      var n := db.notes[noteId];
      if !MayChange(req.user, n.user) then Outcome(db, Redirect(n.claimId))
      else if !req.isPost then Outcome(db, EditForm(noteId))
      else if NoteText(req) == "" then Outcome(db, Redirect(n.claimId))
      else Outcome(db.(notes := db.notes[noteId := n.(text := NoteText(req), updatedAt := req.now)]), Redirect(n.claimId))
  }

  /** `delete_note` as evidently meant: only the note's author or a superuser deletes it. */
  function DeleteNote(db: Db, noteId: int, req: Request): Outcome
  {
    if noteId !in db.notes then Outcome(db, NotFound)
    else
      var n := db.notes[noteId];
      if req.isPost && MayChange(req.user, n.user) then Outcome(db.(notes := db.notes - {noteId}), Redirect(n.claimId))
      else Outcome(db, Redirect(n.claimId))
  }

  /** `delete_note` as written: a request that is not a POST ends in `UnboundLocalError`. */
  function DeleteNoteAsWritten(db: Db, noteId: int, req: Request): Outcome
  {
    if !req.isPost then Outcome(db, ServerError) else DeleteNote(db, noteId, req)
  }

  // ---------------------------------------------------------------- properties

  /**
   * Flagging adds exactly one flag, open, under a fresh id, with the posted
   * reason, and only on a POST for an existing claim.
   */
  lemma FlagClaimAddsOpenFlag(db: Db, claimId: int, req: Request)
    requires ValidDb(db)
    ensures var r := FlagClaim(db, claimId, req);
      && ValidDb(r.db)
      && (!req.isPost || claimId !in db.claims ==> r.db == db)
      && (req.isPost && claimId in db.claims ==>
            && r.db.claims == db.claims && r.db.notes == db.notes && r.db.details == db.details
            && r.db.flags.Keys == db.flags.Keys + {r.db.lastFlagId}
            && r.db.lastFlagId !in db.flags
            && (forall k :: k in db.flags ==> r.db.flags[k] == db.flags[k])
            && var f := r.db.flags[r.db.lastFlagId];
               !f.isResolved && f.claimId == claimId && f.user == req.user.id
               && f.reason == Some(FieldOr(req.form, "reason", "")))
  {
  }

  /** A POST whose note is empty after stripping adds nothing. */
  lemma EmptyNoteAddsNothing(db: Db, claimId: int, req: Request)
    requires NoteText(req) == ""
    ensures AddNote(db, claimId, req).db == db
  {
  }

  /** Without a POST, an existing claim and text that is not all blanks, nothing is added. */
  lemma AddNoteNeedsText(db: Db, claimId: int, req: Request)
    ensures !req.isPost || claimId !in db.claims || NoteText(req) == "" ==> AddNote(db, claimId, req).db == db
  {
  }

  /** Adding a note keeps the database well formed. */
  lemma AddNoteKeepsValid(db: Db, claimId: int, req: Request)
    requires ValidDb(db)
    ensures ValidDb(AddNote(db, claimId, req).db)
  {
    if req.isPost && claimId in db.claims && NoteText(req) != "" {
      var id := db.lastNoteId + 1;
      var n := Note(id, claimId, req.user.id, NoteText(req), req.now, req.now);
      AddNoteStores(db, claimId, req, n);
      AddedNoteValid(db, n);
    } else {
      AddNoteNeedsText(db, claimId, req);
    }
  }

  lemma AddNoteStores(db: Db, claimId: int, req: Request, n: Note)
    requires req.isPost && claimId in db.claims && NoteText(req) != ""
    requires n == Note(db.lastNoteId + 1, claimId, req.user.id, NoteText(req), req.now, req.now)
    ensures AddNote(db, claimId, req).db == db.(notes := db.notes[n.id := n], lastNoteId := n.id)
  {
  }

  /**
   * A POST with text for an existing claim adds one note, under a fresh id,
   * holding that text without its surrounding blanks, and changes nothing
   * else.
   */
  lemma AddNoteStoresStrippedText(db: Db, claimId: int, req: Request)
    requires ValidDb(db)
    requires req.isPost && claimId in db.claims && NoteText(req) != ""
    ensures var r := AddNote(db, claimId, req);
      && r.db.notes.Keys == db.notes.Keys + {r.db.lastNoteId}
      && r.db.lastNoteId !in db.notes
      && (forall k :: k in db.notes ==> r.db.notes[k] == db.notes[k])
      && r.db.claims == db.claims && r.db.flags == db.flags
      && var n := r.db.notes[r.db.lastNoteId];
         n.text == NoteText(req) && n.claimId == claimId && n.user == req.user.id
         && !IsSpace(n.text[0]) && !IsSpace(n.text[|n.text| - 1])
  {
    var id := db.lastNoteId + 1;
    assert AddNote(db, claimId, req).db
      == db.(notes := db.notes[id := Note(id, claimId, req.user.id, NoteText(req), req.now, req.now)], lastNoteId := id);
    StripShape(FieldOr(req.form, "note", ""));
  }

  lemma StripShape(s: string)
    ensures Strip(s) != "" ==> !IsSpace(Strip(s)[0]) && !IsSpace(Strip(s)[|Strip(s)| - 1])
  {
  }

  /**
   * Resolution is one-way: after a POST the flag is resolved; an open flag
   * gets this request's time and user, a resolved one keeps what it had,
   * and no other flag, note or claim changes.
   */
  lemma ResolveIsOneWay(db: Db, flagId: int, req: Request)
    requires ValidDb(db) && flagId in db.flags && req.isPost
    ensures var r := ResolveFlag(db, flagId, req);
      var f := db.flags[flagId];
      && ValidDb(r.db)
      && r.db.flags.Keys == db.flags.Keys
      && r.db.flags[flagId].isResolved
      && (f.isResolved ==> r.db == db)
      && (!f.isResolved ==> r.db.flags[flagId].resolvedAt == Some(req.now) && r.db.flags[flagId].resolvedBy == Some(req.user.id))
      && r.db.flags[flagId].reason == f.reason && r.db.flags[flagId].user == f.user && r.db.flags[flagId].claimId == f.claimId
      && (forall k :: k in db.flags && k != flagId ==> r.db.flags[k] == db.flags[k])
      && r.db.claims == db.claims && r.db.notes == db.notes
  {
  }

  /** A resolved flag is never re-opened and never re-stamped, whoever resolves it again and when. */
  lemma ResolveIdempotent(db: Db, flagId: int, first: Request, second: Request)
    requires first.isPost
    ensures ResolveFlag(ResolveFlag(db, flagId, first).db, flagId, second).db == ResolveFlag(db, flagId, first).db
  {
  }

  /** Deleting a note happens exactly on a POST by its author or a superuser, and removes that note only. */
  lemma DeleteNoteOnlyByOwner(db: Db, noteId: int, req: Request)
    requires ValidDb(db)
    ensures var r := DeleteNote(db, noteId, req);
      && ValidDb(r.db)
      && (noteId !in r.db.notes <==> noteId !in db.notes || (req.isPost && MayChange(req.user, db.notes[noteId].user)))
      && r.db.notes.Keys <= db.notes.Keys && db.notes.Keys - r.db.notes.Keys <= {noteId}
      && (forall k :: k in r.db.notes ==> k in db.notes && r.db.notes[k] == db.notes[k])
      && (forall k :: k in db.notes && k != noteId ==> k in r.db.notes)
      && r.db.flags == db.flags && r.db.claims == db.claims
  {
  }

  /** Deleting a flag happens exactly on a POST by its author or a superuser, and removes that flag only. */
  lemma DeleteFlagOnlyByOwner(db: Db, flagId: int, req: Request)
    requires ValidDb(db)
    ensures var r := DeleteFlag(db, flagId, req);
      && ValidDb(r.db)
      && (flagId !in r.db.flags <==> flagId !in db.flags || (req.isPost && MayChange(req.user, db.flags[flagId].user)))
      && (forall k :: k in r.db.flags ==> k in db.flags && r.db.flags[k] == db.flags[k])
      && (forall k :: k in db.flags && k != flagId ==> k in r.db.flags)
      && r.db.notes == db.notes && r.db.claims == db.claims
  {
  }

  /**
   * Only the note's author or a superuser changes it, only with a POST,
   * and only with text that is not all blanks; otherwise nothing changes.
   * A GET from them is answered with the edit form.
   */
  lemma EditNoteOnlyByOwner(db: Db, noteId: int, req: Request)
    ensures noteId !in db.notes || !MayChange(req.user, db.notes[noteId].user) || !req.isPost || NoteText(req) == ""
      ==> EditNote(db, noteId, req).db == db
    ensures EditNote(db, noteId, req).response == EditForm(noteId)
      <==> noteId in db.notes && MayChange(req.user, db.notes[noteId].user) && !req.isPost
  {
  }

  /**
   * An edit keeps the note's id, claim, author and creation time, gives it
   * the stripped text and the request's time, and touches no other record.
   */
  lemma EditNoteKeepsIdentity(db: Db, noteId: int, req: Request)
    requires ValidDb(db)
    requires noteId in db.notes && MayChange(req.user, db.notes[noteId].user) && req.isPost && NoteText(req) != ""
    ensures var r := EditNote(db, noteId, req);
      var n, m := db.notes[noteId], r.db.notes[noteId];
      && ValidDb(r.db)
      && r.db.notes.Keys == db.notes.Keys
      && (forall k :: k in db.notes && k != noteId ==> r.db.notes[k] == db.notes[k])
      && r.db.flags == db.flags && r.db.claims == db.claims
      && m == Note(n.id, n.claimId, n.user, NoteText(req), n.createdAt, req.now)
  {
  }

  /**
   * The three handlers whose non-POST branch reads a variable only the POST
   * branch binds: as written they answer a GET for an existing object with
   * a 500, where a redirect to the object's claim was meant; on a POST the
   * two agree.
   */
  lemma NonPostHandlersFail(db: Db, id: int, req: Request)
    requires !req.isPost
    ensures ResolveFlagAsWritten(db, id, req) == Outcome(db, ServerError)
    ensures DeleteFlagAsWritten(db, id, req) == Outcome(db, ServerError)
    ensures DeleteNoteAsWritten(db, id, req) == Outcome(db, ServerError)
    ensures id in db.flags ==> ResolveFlag(db, id, req) == Outcome(db, Redirect(db.flags[id].claimId))
    ensures id in db.flags ==> DeleteFlag(db, id, req) == Outcome(db, Redirect(db.flags[id].claimId))
    ensures id in db.notes ==> DeleteNote(db, id, req) == Outcome(db, Redirect(db.notes[id].claimId))
  {
  }

  /** On a POST the handlers as written and as meant are the same. */
  lemma PostHandlersAgree(db: Db, id: int, req: Request)
    requires req.isPost
    ensures ResolveFlagAsWritten(db, id, req) == ResolveFlag(db, id, req)
    ensures DeleteFlagAsWritten(db, id, req) == DeleteFlag(db, id, req)
    ensures DeleteNoteAsWritten(db, id, req) == DeleteNote(db, id, req)
  {
  }

  // ---------------------------------------------------------------- the views

  method FlagClaimView(db: ClaimDatabase, claimId: int, req: Request) returns (response: Response)
    modifies db
    ensures Outcome(db.State(), response) == FlagClaim(old(db.State()), claimId, req)
  {
    if req.isPost {
      if claimId !in db.claims {
        return NotFound;
      }
      var reason := FieldOr(req.form, "reason", "");
      var _ := db.CreateFlag(claimId, req.user.id, reason, req.now);
      if req.hx {
        return Partial(claimId);
      }
      return Redirect(claimId);
    }
    return Redirect(claimId);
  }

  method AddNoteView(db: ClaimDatabase, claimId: int, req: Request) returns (response: Response)
    modifies db
    ensures Outcome(db.State(), response) == AddNote(old(db.State()), claimId, req)
  {
    if req.isPost {
      if claimId !in db.claims {
        return NotFound;
      }
      var noteText := NoteText(req);
      if noteText != "" {
        var _ := db.CreateNote(claimId, req.user.id, noteText, req.now);
      }
      if req.hx {
        return Partial(claimId);
      }
      return Redirect(claimId);
    }
    return Redirect(claimId);
  }

  /** `resolve_flag` with its non-POST branch redirecting to the flag's claim. */
  method ResolveFlagView(db: ClaimDatabase, flagId: int, req: Request) returns (response: Response)
    requires db.Valid()
    modifies db
    ensures Outcome(db.State(), response) == ResolveFlag(old(db.State()), flagId, req)
  {
    if flagId !in db.flags {
      return NotFound;
    }
    var flag := db.flags[flagId];
    if req.isPost {
      if !flag.isResolved {
        db.SaveFlag(flag.(isResolved := true, resolvedAt := Some(req.now), resolvedBy := Some(req.user.id)));
      }
      if req.hx {
        return Partial(flag.claimId);
      }
      return Redirect(flag.claimId);
    }
    return Redirect(flag.claimId);
  }

  /** `delete_note` with its non-POST branch redirecting to the note's claim. */
  method DeleteNoteView(db: ClaimDatabase, noteId: int, req: Request) returns (response: Response)
    modifies db
    ensures Outcome(db.State(), response) == DeleteNote(old(db.State()), noteId, req)
  {
    if noteId !in db.notes {
      return NotFound;
    }
    var note := db.notes[noteId];
    if req.isPost && (req.user.id == note.user || req.user.isSuperuser) {
      db.RemoveNote(noteId);
    }
    return Redirect(note.claimId);
  }

  method EditNoteView(db: ClaimDatabase, noteId: int, req: Request) returns (response: Response)
    requires db.Valid()
    modifies db
    ensures Outcome(db.State(), response) == EditNote(old(db.State()), noteId, req)
  {
    if noteId !in db.notes {
      return NotFound;
    }
    var note := db.notes[noteId];
    if req.user.id != note.user && !req.user.isSuperuser {
      return Redirect(note.claimId);
    }
    if req.isPost {
      var noteText := NoteText(req);
      if noteText != "" {
        db.SaveNote(note.(text := noteText, updatedAt := req.now));
      }
      return Redirect(note.claimId);
    }
    return EditForm(noteId);
  }

  /** `delete_flag` with its non-POST branch redirecting to the flag's claim. */
  method DeleteFlagView(db: ClaimDatabase, flagId: int, req: Request) returns (response: Response)
    modifies db
    ensures Outcome(db.State(), response) == DeleteFlag(old(db.State()), flagId, req)
  {
    if flagId !in db.flags {
      return NotFound;
    }
    var flag := db.flags[flagId];
    if req.isPost && (req.user.id == flag.user || req.user.isSuperuser) {
      db.RemoveFlag(flagId);
    }
    return Redirect(flag.claimId);
  }

  // ---------------------------------------------------------------- change check

  /** The JSON body of `api_check_changes`, or its 500 when the check raises. */
  datatype ChangeReport = ChangeReport(changesDetected: bool, changedFiles: seq<string>, totalFiles: nat) | CheckFailed

  /** What `api_check_changes` answers for a snapshot and a scan (`None` when the scan raises). */
  function Report(cached: Snapshot, scan: Option<Listing>): ChangeReport
  {
    if scan.None? then CheckFailed
    else
      var current := Hashes(scan.value);
      var changes := Changes(cached, current);
      ChangeReport(|changes| > 0, changes, |current|)
  }

  /**
   * Changes are reported exactly when some path's fingerprint differs from
   * the stored one, and each reported path is one whose fingerprint differs.
   */
  lemma ReportDetectsChange(cached: Snapshot, listing: Listing)
    ensures var r := Report(cached, Some(listing));
      var current := Hashes(listing);
      && (r.changesDetected <==> exists p :: Lookup(current, p) != Lookup(cached, p))
      && (forall p :: p in r.changedFiles <==> Lookup(current, p) != Lookup(cached, p))
      && r.totalFiles == |current|
  {
    var current := Hashes(listing);
    var changes := Changes(cached, current);
    forall p ensures p in changes <==> Lookup(current, p) != Lookup(cached, p) {
      ChangesIff(cached, current, p);
    }
    assert Report(cached, Some(listing)) == ChangeReport(|changes| > 0, changes, |current|);
    if |changes| > 0 {
      assert changes[0] in changes;
      assert Lookup(current, changes[0]) != Lookup(cached, changes[0]);
    }
    if exists p :: Lookup(current, p) != Lookup(cached, p) {
      var p :| Lookup(current, p) != Lookup(cached, p);
      assert p in changes;
    }
  }

  /** `api_check_changes`: one `check_for_changes`, which also replaces the stored snapshot. */
  method ApiCheckChanges(monitor: DataMonitor, scan: Option<Listing>) returns (r: ChangeReport)
    requires monitor.Valid()
    modifies monitor
    ensures monitor.Valid()
    ensures r == Report(old(monitor.cached), scan)
    ensures monitor.cached == if scan.None? then old(monitor.cached) else Hashes(scan.value)
  {
    if scan.None? {
      return CheckFailed;
    }
    var changes, currentHashes := monitor.CheckForChanges(scan.value);
    r := ChangeReport(|changes| > 0, changes, |currentHashes|);
  }
}
