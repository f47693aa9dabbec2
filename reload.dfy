/**
 * The shared shape of the two `reload_claims_data` commands: inside one
 * `transaction.atomic()` block, overwrite mode empties both tables, then each
 * table whose file exists is filled from it with `bulk_create(...,
 * ignore_conflicts=True)`. Any exception rolls the whole block back and is
 * raised again as a `CommandError`. The commands differ only in how they turn
 * a row into a record, so those conversions are parameters here.
 */
module Reload {
  import opened Wrappers
  import opened Bulk
  import opened Models
  import Ingest

  datatype Mode = Overwrite | Append

  /** Why the block raised. */
  datatype ReloadError = ClaimFileError | ClaimRowError(claimRow: nat) | DetailFileError | DetailRowError(detailRow: nat)

  /** One table's part of the block: a missing file leaves the table alone. */
  function LoadClaims(db: Db, input: CsvInput, claimOf: Row -> Option<Claim>): Result<Db, ReloadError>
  {
    match input
    case Missing => Ok(db)
    case Unreadable => Err(ClaimFileError)
    case Present(rows) =>
      match Ingest.ParseAll(rows, claimOf)
      case Err(i) => Err(ClaimRowError(i))
      case Ok(objs) => Ok(AddClaims(db, objs))
  }

  function LoadDetails(db: Db, input: CsvInput, detailOf: Row -> Option<Detail>): Result<Db, ReloadError>
  {
    match input
    case Missing => Ok(db)
    case Unreadable => Err(DetailFileError)
    case Present(rows) =>
      match Ingest.ParseAll(rows, detailOf)
      case Err(i) => Err(DetailRowError(i))
      case Ok(objs) => Ok(AddDetails(db, objs))
  }

  /** The state the block reaches, or the exception it raises. */
  function Block(db: Db, mode: Mode, claimsIn: CsvInput, detailsIn: CsvInput,
                 claimOf: Row -> Option<Claim>, detailOf: Row -> Option<Detail>): Result<Db, ReloadError>
  {
    var base := if mode == Overwrite then ClearDetails(ClearClaims(db)) else db;
    match LoadClaims(base, claimsIn, claimOf)
    case Err(e) => Err(e)
    case Ok(d) => LoadDetails(d, detailsIn, detailOf)
  }

  /** The committed state: the block's result, or, after a rollback, the state before it. */
  function Reloaded(db: Db, mode: Mode, claimsIn: CsvInput, detailsIn: CsvInput,
                    claimOf: Row -> Option<Claim>, detailOf: Row -> Option<Detail>): Db
  {
    match Block(db, mode, claimsIn, detailsIn, claimOf, detailOf)
    case Ok(d) => d
    case Err(_) => db
  }

  /** The block keeps the database consistent. */
  lemma BlockValid(db: Db, mode: Mode, claimsIn: CsvInput, detailsIn: CsvInput,
                   claimOf: Row -> Option<Claim>, detailOf: Row -> Option<Detail>)
    requires ValidDb(db)
    ensures ValidDb(Reloaded(db, mode, claimsIn, detailsIn, claimOf, detailOf))
  {
  }

  /** A row that cannot be converted aborts the reload and leaves both tables exactly as they were. */
  lemma {:induction false} BadClaimRowRollsBack(db: Db, mode: Mode, rows: seq<Row>, detailsIn: CsvInput,
                                                claimOf: Row -> Option<Claim>, detailOf: Row -> Option<Detail>, i: nat)
    requires i < |rows| && claimOf(rows[i]).None?
    ensures Block(db, mode, Present(rows), detailsIn, claimOf, detailOf).Err?
    ensures Reloaded(db, mode, Present(rows), detailsIn, claimOf, detailOf) == db
  {
    Ingest.ParseAllIsAdmitted(rows, claimOf);
  }

  lemma {:induction false} BadDetailRowRollsBack(db: Db, mode: Mode, claimsIn: CsvInput, rows: seq<Row>,
                                                 claimOf: Row -> Option<Claim>, detailOf: Row -> Option<Detail>, i: nat)
    requires i < |rows| && detailOf(rows[i]).None?
    ensures Block(db, mode, claimsIn, Present(rows), claimOf, detailOf).Err?
    ensures Reloaded(db, mode, claimsIn, Present(rows), claimOf, detailOf) == db
  {
    Ingest.ParseAllIsAdmitted(rows, detailOf);
  }

  /** Append mode keeps every existing record and annotation: a new row whose id is taken is dropped. */
  lemma AppendKeepsExisting(db: Db, claimsIn: CsvInput, detailsIn: CsvInput,
                            claimOf: Row -> Option<Claim>, detailOf: Row -> Option<Detail>)
    ensures var r := Reloaded(db, Append, claimsIn, detailsIn, claimOf, detailOf);
      && (forall k :: k in db.claims ==> k in r.claims && r.claims[k] == db.claims[k])
      && (forall k :: k in db.details ==> k in r.details && r.details[k] == db.details[k])
      && r.flags == db.flags && r.notes == db.notes
      && |db.claims| <= |r.claims| && |db.details| <= |r.details|
  {
    var r := Reloaded(db, Append, claimsIn, detailsIn, claimOf, detailOf);
    LoadClaimsKeeps(db, claimsIn, claimOf);
    if LoadClaims(db, claimsIn, claimOf).Ok? {
      var d := LoadClaims(db, claimsIn, claimOf).value;
      LoadDetailsKeeps(d, detailsIn, detailOf);
    }
    assert Keeps(db, r);
    assert db.claims.Keys <= r.claims.Keys;
    assert db.details.Keys <= r.details.Keys;
    SubsetSize(db.claims.Keys, r.claims.Keys);
    SubsetSize(db.details.Keys, r.details.Keys);
  }

  /** `r` holds every record of `db` unchanged, and the same flags and notes. */
  ghost predicate Keeps(db: Db, r: Db)
  {
    && (forall k :: k in db.claims ==> k in r.claims && r.claims[k] == db.claims[k])
    && (forall k :: k in db.details ==> k in r.details && r.details[k] == db.details[k])
    && r.flags == db.flags && r.notes == db.notes
  }

  lemma LoadClaimsKeeps(db: Db, input: CsvInput, claimOf: Row -> Option<Claim>)
    ensures LoadClaims(db, input, claimOf).Ok? ==> Keeps(db, LoadClaims(db, input, claimOf).value)
  {
  }

  lemma LoadDetailsKeeps(db: Db, input: CsvInput, detailOf: Row -> Option<Detail>)
    ensures LoadDetails(db, input, detailOf).Ok? ==> Keeps(db, LoadDetails(db, input, detailOf).value)
  {
  }

  lemma SubsetSize<K>(a: set<K>, b: set<K>)
    requires a <= b
    ensures |a| <= |b|
  {
    assert b == a + (b - a);
  }

  /** Overwrite mode with neither file present empties both tables, and the cascade empties flags and notes too. */
  lemma OverwriteWithoutFiles(db: Db, claimOf: Row -> Option<Claim>, detailOf: Row -> Option<Detail>)
    requires ValidDb(db)
    ensures Reloaded(db, Overwrite, Missing, Missing, claimOf, detailOf)
      == db.(claims := map[], details := map[], flags := map[], notes := map[])
  {
    ClearClaimsWipesAnnotations(db);
  }

  /** A missing claim file in append mode leaves the claim table as it was. */
  lemma MissingFileSkipsTable(db: Db, detailsIn: CsvInput, claimOf: Row -> Option<Claim>, detailOf: Row -> Option<Detail>)
    ensures Reloaded(db, Append, Missing, detailsIn, claimOf, detailOf).claims == db.claims
  {
  }

  /** What an overwrite leaves does not depend on what the tables held before. */
  lemma OverwriteForgetsOldData(db1: Db, db2: Db, claimsIn: CsvInput, detailsIn: CsvInput,
                                claimOf: Row -> Option<Claim>, detailOf: Row -> Option<Detail>)
    requires ValidDb(db1) && ValidDb(db2)
    ensures var b1, b2 := Block(db1, Overwrite, claimsIn, detailsIn, claimOf, detailOf), Block(db2, Overwrite, claimsIn, detailsIn, claimOf, detailOf);
      b1.Ok? == b2.Ok? && (b1.Ok? ==> b1.value.claims == b2.value.claims && b1.value.details == b2.value.details)
  {
    ClearClaimsWipesAnnotations(db1);
    ClearClaimsWipesAnnotations(db2);
  }

  /** Running the same overwrite twice leaves what running it once does. */
  lemma OverwriteIdempotent(db: Db, claimsIn: CsvInput, detailsIn: CsvInput,
                            claimOf: Row -> Option<Claim>, detailOf: Row -> Option<Detail>)
    requires ValidDb(db)
    ensures var once := Reloaded(db, Overwrite, claimsIn, detailsIn, claimOf, detailOf);
      Reloaded(once, Overwrite, claimsIn, detailsIn, claimOf, detailOf) == once
  {
    var once := Reloaded(db, Overwrite, claimsIn, detailsIn, claimOf, detailOf);
    BlockValid(db, Overwrite, claimsIn, detailsIn, claimOf, detailOf);
    OverwriteForgetsOldData(db, once, claimsIn, detailsIn, claimOf, detailOf);
    ClearClaimsWipesAnnotations(db);
    ClearClaimsWipesAnnotations(once);
  }

  /** Appending the same files a second time changes nothing: every id they hold is taken. */
  lemma AppendIdempotent(db: Db, claimsIn: CsvInput, detailsIn: CsvInput,
                         claimOf: Row -> Option<Claim>, detailOf: Row -> Option<Detail>)
    ensures var once := Reloaded(db, Append, claimsIn, detailsIn, claimOf, detailOf);
      Reloaded(once, Append, claimsIn, detailsIn, claimOf, detailOf) == once
  {
    var once := Reloaded(db, Append, claimsIn, detailsIn, claimOf, detailOf);
    if Block(db, Append, claimsIn, detailsIn, claimOf, detailOf).Ok? {
      var again := LoadClaims(once, claimsIn, claimOf);
      if claimsIn.Present? {
        var objs := Ingest.ParseAll(claimsIn.rows, claimOf).value;
        InsertIgnoringTaken(once.claims, objs, ClaimKey);
        assert again == Ok(once.(claims := InsertIgnoring(once.claims, objs, ClaimKey)));
      }
      assert again == Ok(once);
      if detailsIn.Present? {
        var objs := Ingest.ParseAll(detailsIn.rows, detailOf).value;
        InsertIgnoringTaken(once.details, objs, DetailKey);
        assert LoadDetails(once, detailsIn, detailOf) == Ok(once.(details := InsertIgnoring(once.details, objs, DetailKey)));
      }
      assert LoadDetails(once, detailsIn, detailOf) == Ok(once);
    }
  }

  /**
   * `handle`: the atomic block, run step by step on the database; `Err` is
   * the `CommandError` raised after the rollback.
   */
  method Run(db: ClaimDatabase, mode: Mode, claimsIn: CsvInput, detailsIn: CsvInput,
             claimOf: Row -> Option<Claim>, detailOf: Row -> Option<Detail>) returns (r: Result<(), ReloadError>)
    modifies db
    ensures r.Ok? ==> Block(old(db.State()), mode, claimsIn, detailsIn, claimOf, detailOf) == Ok(db.State())
    ensures r.Err? ==> Block(old(db.State()), mode, claimsIn, detailsIn, claimOf, detailOf) == Err(r.error)
    ensures db.State() == Reloaded(old(db.State()), mode, claimsIn, detailsIn, claimOf, detailOf)
  {
    var saved := db.State();
    if mode == Overwrite {
      db.DeleteAllClaims();
      db.DeleteAllDetails();
    }
    match claimsIn {
      case Missing =>
      case Unreadable =>
        db.Restore(saved);
        return Err(ClaimFileError);
      case Present(rows) =>
        var objs := Ingest.CollectAll(rows, claimOf);
        if objs.Err? {
          db.Restore(saved);
          return Err(ClaimRowError(objs.error));
        }
        db.BulkCreateClaims(objs.value);
    }
    match detailsIn {
      case Missing =>
      case Unreadable =>
        db.Restore(saved);
        return Err(DetailFileError);
      case Present(rows) =>
        var objs := Ingest.CollectAll(rows, detailOf);
        if objs.Err? {
          db.Restore(saved);
          return Err(DetailRowError(objs.error));
        }
        db.BulkCreateDetails(objs.value);
    }
    r := Ok(());
  }
}
