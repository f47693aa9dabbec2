/**
 * The `auto_reload_data` command of the backend: one round checks the data
 * folder for changes and, when there are any, runs the backend's
 * `load_claims_data` and stamps the time of the reload in the cache.
 * Errors of a round are reported and swallowed.
 */
module AutoReload {
  import opened Wrappers
  import opened Models
  import opened Monitor
  import BackendLoad

  /** What a round reads and writes: the stored fingerprints, the database and the `last_data_reload` stamp. */
  datatype Watch = Watch(cached: Snapshot, db: Db, lastReload: Option<Time>)

  /**
   * `check_and_reload`. `scan` is the folder as the check sees it, `None`
   * when the check raises (a file disappearing between its read and its
   * `stat`, say); the exception is swallowed before the cache is written.
   * `reload_data` runs the load command, whose `handle` reports its own
   * errors instead of raising, so the reload always returns normally.
   */
  function Round(w: Watch, scan: Option<Listing>, claimsIn: CsvInput, detailsIn: CsvInput, now: Time): Watch
  {
    match scan
    case None => w
    case Some(listing) =>
      var current := Hashes(listing);
      if |Changes(w.cached, current)| > 0 then
        Watch(current, BackendLoad.After(BackendLoad.Load(w.db, claimsIn, detailsIn)), Some(now))
      else
        Watch(current, w.db, w.lastReload)
  }

  /** The data is reloaded, and the stamp set, exactly when the check reports a change. */
  lemma ReloadIffChanged(w: Watch, listing: Listing, claimsIn: CsvInput, detailsIn: CsvInput, now: Time)
    ensures var r := Round(w, Some(listing), claimsIn, detailsIn, now);
      && r.cached == Hashes(listing)
      && (|Changes(w.cached, Hashes(listing))| > 0 ==> r.db == BackendLoad.After(BackendLoad.Load(w.db, claimsIn, detailsIn)) && r.lastReload == Some(now))
      && (|Changes(w.cached, Hashes(listing))| == 0 ==> r.db == w.db && r.lastReload == w.lastReload)
  {
  }

  /** A stamp that changed in a round is that round's time, and it only changes when files changed. */
  lemma StampOnlyAfterReload(w: Watch, scan: Option<Listing>, claimsIn: CsvInput, detailsIn: CsvInput, now: Time)
    ensures var r := Round(w, scan, claimsIn, detailsIn, now);
      r.lastReload != w.lastReload ==> r.lastReload == Some(now) && scan.Some? && |Changes(w.cached, Hashes(scan.value))| > 0
  {
  }

  /** A check that raises changes nothing: not the fingerprints, not the data, not the stamp. */
  lemma FailedCheckChangesNothing(w: Watch, claimsIn: CsvInput, detailsIn: CsvInput, now: Time)
    ensures Round(w, None, claimsIn, detailsIn, now) == w
  {
  }

  /**
   * `handle` without `--continuous`: the priming check stores the
   * fingerprints, so when the files do not change before the round, the
   * round reloads nothing.
   */
  lemma PrimedRoundIsQuiet(w: Watch, listing: Listing, claimsIn: CsvInput, detailsIn: CsvInput, now: Time)
    ensures var primed := w.(cached := Hashes(listing));
      Round(primed, Some(listing), claimsIn, detailsIn, now) == primed
  {
    NothingChanged(Hashes(listing));
  }

  /** A round whose files all disappeared reloads when something was stored before. */
  lemma VanishedFolderReloads(w: Watch, claimsIn: CsvInput, detailsIn: CsvInput, now: Time)
    requires |w.cached| > 0
    ensures Round(w, Some(NoFolder), claimsIn, detailsIn, now).lastReload == Some(now)
  {
    MissingFolderDeletesAll(w.cached);
  }

  /** The command, with the `last_data_reload` entry of the cache. */
  class AutoReloader {
    var lastReload: Option<Time>

    constructor ()
      ensures lastReload == None
    {
      lastReload := None;
    }

    /** `reload_data`: runs the load command; its errors never reach here. */
    method ReloadData(db: ClaimDatabase, claimsIn: CsvInput, detailsIn: CsvInput)
      modifies db
      ensures db.State() == BackendLoad.After(BackendLoad.Load(old(db.State()), claimsIn, detailsIn))
    {
      var succeeded := BackendLoad.Handle(db, claimsIn, detailsIn);
    }

    /** `check_and_reload`; `reloaded` says whether changes were found. */
    method CheckAndReload(monitor: DataMonitor, db: ClaimDatabase, scan: Option<Listing>,
                          claimsIn: CsvInput, detailsIn: CsvInput, now: Time) returns (reloaded: bool)
      requires monitor.Valid()
      modifies this, monitor, db
      ensures monitor.Valid()
      ensures Watch(monitor.cached, db.State(), lastReload)
           == Round(Watch(old(monitor.cached), old(db.State()), old(lastReload)), scan, claimsIn, detailsIn, now)
      ensures reloaded <==> scan.Some? && |Changes(old(monitor.cached), Hashes(scan.value))| > 0
    {
      reloaded := false;
      if scan.Some? {
        var changes, current := monitor.CheckForChanges(scan.value);
        if |changes| > 0 {
          ReloadData(db, claimsIn, detailsIn);
          lastReload := Some(now);
          reloaded := true;
        }
      }
    }

    /**
     * `handle` without `--continuous`: one priming check, then one round.
     * A priming check that raises is not caught and ends the command;
     * `failed` reports that escape.
     */
    method RunOnce(monitor: DataMonitor, db: ClaimDatabase, prime: Option<Listing>, scan: Option<Listing>,
                   claimsIn: CsvInput, detailsIn: CsvInput, now: Time) returns (reloaded: bool, failed: bool)
      requires monitor.Valid()
      modifies this, monitor, db
      ensures monitor.Valid()
      ensures failed <==> prime.None?
      ensures failed ==> !reloaded && unchanged(this, monitor) && db.State() == old(db.State())
      ensures prime.Some? ==>
                Watch(monitor.cached, db.State(), lastReload)
                == Round(Watch(Hashes(prime.value), old(db.State()), old(lastReload)), scan, claimsIn, detailsIn, now)
      ensures prime.Some? && prime == scan ==> !reloaded && db.State() == old(db.State())
    {
      reloaded, failed := false, prime.None?;
      if prime.None? {
        return;
      }
      var changes, current := monitor.CheckForChanges(prime.value);
      reloaded := CheckAndReload(monitor, db, scan, claimsIn, detailsIn, now);
      if prime == scan {
        NothingChanged(Hashes(prime.value));
      }
    }
  }
}
