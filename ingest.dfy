/**
 * The insert-or-refresh step the loop of `run_scraper` in
 * scripts/scrape_all_boards.py runs for every scraped job. The loop of
 * `store_jobs` in scripts/scrape_and_store.py runs the same step and then a
 * debug line that raises for a job without a title; module ScrapeAndStore
 * adds that error on top of this step.
 *
 * The database session is a sequence of rows that grows as jobs are added,
 * so a later job of the same batch finds an earlier one as a duplicate, as
 * the session's autoflush makes it do. A job inserted with a null NOT NULL
 * column (title, company or url) cannot be flushed: from then on every query
 * of the session raises, so every later job is an error and the commit fails.
 */
module Ingest {
  import opened Wrappers
  import opened Text
  import opened JobUtils

  /** A key of a scraped job dict: absent, present with None, or a string. */
  datatype Field = Missing | Null | Value(s: String) {
    /** The value as an Option, for a key known to be present. */
    function AsOption(): Option<String>
      requires !Missing?
    {
      if Value? then Some(s) else None
    }
  }

  /** One scraped job as the scrapers hand it over. Optional keys read with `.get` are Options. */
  datatype RawJob = RawJob(
    title: Field,
    company: Field,
    url: Field,
    board: Field,
    description: Option<String>,
    salaryText: Option<String>,
    salaryMin: Option<int>,
    salaryMax: Option<int>,
    location: Option<String>)

  /** What a scraper's `search` call produced: the jobs, or the message of the exception it raised. */
  datatype Scrape = Raised(message: String) | Scraped(jobs: seq<RawJob>)

  /**
   * The session while a batch is being stored, with the loop's three counters.
   * `broken` records that a job with a null title, company or url was added:
   * the session cannot flush that row, so the next query raises.
   */
  datatype Batch = Batch(rows: seq<Job>, added: nat, duplicates: nat, errors: nat, broken: bool)

  /** A fresh primary key: one more than every key in use. */
  function NextId(rows: seq<Job>): (id: nat)
    ensures forall i :: 0 <= i < |rows| ==> rows[i].id < id
  {
    if rows == [] then 1
    else
      var rest := NextId(rows[..|rows| - 1]);
      var last := rows[|rows| - 1].id + 1;
      var id := if rest < last then last else rest;
      assert forall i :: 0 <= i < |rows| - 1 ==> rows[i] == rows[..|rows| - 1][i];
      id
  }

  /** The existing row a duplicate refreshes: seen now, and active again. */
  function Refresh(j: Job, now: int): (r: Job)
    ensures r.lastSeen == Some(now) && r.isActive
    ensures r == j.(lastSeen := Some(now), isActive := true)
  {
    j.(lastSeen := Some(now), isActive := true)
  }

  /** The job is rejected before any lookup: `job_data[...]` raises KeyError, or `job_board.lower()` is called on None. */
  predicate Rejected(j: RawJob) {
    j.title.Missing? || j.company.Missing? || j.board.Missing? || j.board.Null? || j.url.Missing?
  }

  /** The fingerprint of an accepted job. */
  function RawFingerprint(h: Hasher, j: RawJob): String
    requires !Rejected(j)
  {
    GenerateFingerprint(h, j.title.AsOption(), j.company.AsOption(), j.board.s)
  }

  /** The row an accepted, non-duplicate job becomes, when its NOT NULL columns are all present. */
  function NewRow(h: Hasher, rows: seq<Job>, j: RawJob, now: int): Job
    requires !Rejected(j) && j.title.Value? && j.company.Value? && j.url.Value?
  {
    Job(NextId(rows), j.title.s, j.company.s, j.description, j.salaryText, j.salaryMin, j.salaryMax,
        j.location, j.url.s, j.board.s, Some(RawFingerprint(h, j)), Some(now), true)
  }

  /** One iteration of the loop: exactly one counter grows by one. */
  function Step(h: Hasher, now: int, b: Batch, j: RawJob): (r: Batch)
    ensures r.added + r.duplicates + r.errors == b.added + b.duplicates + b.errors + 1
    ensures || (r.added == b.added + 1 && r.duplicates == b.duplicates && r.errors == b.errors)
            || (r.added == b.added && r.duplicates == b.duplicates + 1 && r.errors == b.errors)
            || (r.added == b.added && r.duplicates == b.duplicates && r.errors == b.errors + 1)
    ensures b.broken ==> r.broken
    ensures |b.rows| <= |r.rows| <= |b.rows| + 1
  {
    if b.broken || Rejected(j) then b.(errors := b.errors + 1)
    else
      match FindDuplicate(b.rows, j.url.AsOption(), RawFingerprint(h, j))
      case Some(k) => b.(rows := b.rows[k := Refresh(b.rows[k], now)], duplicates := b.duplicates + 1)
      case None =>
        if j.title.Value? && j.company.Value? && j.url.Value? then
          b.(rows := b.rows + [NewRow(h, b.rows, j, now)], added := b.added + 1)
        else
          b.(added := b.added + 1, broken := true)
  }

  /** The loop over a whole batch. */
  function StepAll(h: Hasher, now: int, b: Batch, jobs: seq<RawJob>): Batch {
    if jobs == [] then b else Step(h, now, StepAll(h, now, b, jobs[..|jobs| - 1]), jobs[|jobs| - 1])
  }

  /** Every job of the batch is counted exactly once, as added, duplicate or error. */
  lemma {:induction false} StepAllCounts(h: Hasher, now: int, b: Batch, jobs: seq<RawJob>)
    ensures var r := StepAll(h, now, b, jobs);
            r.added + r.duplicates + r.errors == b.added + b.duplicates + b.errors + |jobs|
    decreases |jobs|
  {
    if jobs != [] {
      StepAllCounts(h, now, b, jobs[..|jobs| - 1]);
    }
  }

  /** A rejected job, or any job once the session is broken, is an error and changes nothing else. */
  lemma ErrorChangesNothing(h: Hasher, now: int, b: Batch, j: RawJob)
    requires b.broken || Rejected(j)
    ensures var r := Step(h, now, b, j);
            && r.rows == b.rows && r.broken == b.broken
            && r.errors == b.errors + 1 && r.added == b.added && r.duplicates == b.duplicates
  {
  }

  /**
   * A new job with its title, company and url present is appended as a fresh,
   * active row carrying its fingerprint, and counts as added.
   */
  lemma NewJobAppended(h: Hasher, now: int, b: Batch, j: RawJob)
    requires !b.broken && !Rejected(j)
    requires FindDuplicate(b.rows, j.url.AsOption(), RawFingerprint(h, j)).None?
    requires j.title.Value? && j.company.Value? && j.url.Value?
    ensures var r := Step(h, now, b, j);
            && r.rows == b.rows + [NewRow(h, b.rows, j, now)]
            && r.added == b.added + 1 && r.duplicates == b.duplicates && r.errors == b.errors && !r.broken
    ensures var row := NewRow(h, b.rows, j, now);
            && row.url == j.url.s && row.title == j.title.s && row.company == j.company.s && row.board == j.board.s
            && row.fingerprint == Some(RawFingerprint(h, j)) && row.lastSeen == Some(now) && row.isActive
            && forall i :: 0 <= i < |b.rows| ==> b.rows[i].id < row.id
  {
  }

  /** A new job with a null title, company or url counts as added, but adds no row and breaks the session. */
  lemma NullColumnBreaks(h: Hasher, now: int, b: Batch, j: RawJob)
    requires !b.broken && !Rejected(j)
    requires FindDuplicate(b.rows, j.url.AsOption(), RawFingerprint(h, j)).None?
    requires !(j.title.Value? && j.company.Value? && j.url.Value?)
    ensures var r := Step(h, now, b, j);
            && r.rows == b.rows && r.broken
            && r.added == b.added + 1 && r.duplicates == b.duplicates && r.errors == b.errors
  {
  }

  /** A job matching an existing row refreshes that row, counts as a duplicate and adds no row. */
  lemma DuplicateRefreshes(h: Hasher, now: int, b: Batch, j: RawJob, k: nat)
    requires !b.broken && !Rejected(j)
    requires FindDuplicate(b.rows, j.url.AsOption(), RawFingerprint(h, j)) == Some(k)
    ensures var r := Step(h, now, b, j);
            && |r.rows| == |b.rows|
            && r.rows[k].lastSeen == Some(now) && r.rows[k].isActive
            && (forall i :: 0 <= i < |b.rows| && i != k ==> r.rows[i] == b.rows[i])
            && r.duplicates == b.duplicates + 1 && r.added == b.added && r.errors == b.errors
  {
  }

  /** The `url` column stays unique: a job is only inserted when no row has its URL. */
  lemma StepKeepsUniqueUrls(h: Hasher, now: int, b: Batch, j: RawJob)
    requires UniqueUrls(b.rows)
    ensures UniqueUrls(Step(h, now, b, j).rows)
  {
    var r := Step(h, now, b, j);
    if !b.broken && !Rejected(j) && FindDuplicate(b.rows, j.url.AsOption(), RawFingerprint(h, j)).None?
       && j.title.Value? && j.company.Value? && j.url.Value? {
      assert forall i :: 0 <= i < |b.rows| ==> !HasUrl(b.rows[i], Some(j.url.s));
      assert r.rows == b.rows + [NewRow(h, b.rows, j, now)];
    }
  }

  /** Overwriting a row with one of the same key keeps the keys unique. */
  lemma RefreshKeepsUniqueIds(rows: seq<Job>, k: nat, x: Job)
    requires UniqueIds(rows) && k < |rows| && x.id == rows[k].id
    ensures UniqueIds(rows[k := x])
  {
    assert forall i :: 0 <= i < |rows| ==> rows[k := x][i].id == rows[i].id;
  }

  /** Appending a row whose key is above every key in use keeps the keys unique. */
  lemma AppendKeepsUniqueIds(rows: seq<Job>, x: Job)
    requires UniqueIds(rows) && forall i :: 0 <= i < |rows| ==> rows[i].id < x.id
    ensures UniqueIds(rows + [x])
  {
    var r := rows + [x];
    assert forall i :: 0 <= i < |rows| ==> r[i] == rows[i];
  }

  /** The primary key stays unique: an inserted row gets a key above every key in use. */
  lemma StepKeepsUniqueIds(h: Hasher, now: int, b: Batch, j: RawJob)
    requires UniqueIds(b.rows)
    ensures UniqueIds(Step(h, now, b, j).rows)
  {
    if !b.broken && !Rejected(j) {
      match FindDuplicate(b.rows, j.url.AsOption(), RawFingerprint(h, j))
      case Some(k) =>
        RefreshKeepsUniqueIds(b.rows, k, Refresh(b.rows[k], now));
      case None =>
        if j.title.Value? && j.company.Value? && j.url.Value? {
          AppendKeepsUniqueIds(b.rows, NewRow(h, b.rows, j, now));
        }
    }
  }

  /** Both uniqueness facts hold after a whole batch. */
  lemma {:induction false} StepAllKeepsUnique(h: Hasher, now: int, b: Batch, jobs: seq<RawJob>)
    requires UniqueUrls(b.rows) && UniqueIds(b.rows)
    ensures UniqueUrls(StepAll(h, now, b, jobs).rows) && UniqueIds(StepAll(h, now, b, jobs).rows)
    decreases |jobs|
  {
    if jobs != [] {
      var prev := StepAll(h, now, b, jobs[..|jobs| - 1]);
      StepAllKeepsUnique(h, now, b, jobs[..|jobs| - 1]);
      StepKeepsUniqueUrls(h, now, prev, jobs[|jobs| - 1]);
      StepKeepsUniqueIds(h, now, prev, jobs[|jobs| - 1]);
    }
  }

  /** No row is ever removed: the batch keeps every existing row, refreshed or not, in place. */
  lemma {:induction false} StepAllKeepsRows(h: Hasher, now: int, b: Batch, jobs: seq<RawJob>)
    ensures |b.rows| <= |StepAll(h, now, b, jobs).rows|
    ensures forall i :: 0 <= i < |b.rows| ==>
              StepAll(h, now, b, jobs).rows[i].id == b.rows[i].id
              && StepAll(h, now, b, jobs).rows[i].url == b.rows[i].url
    decreases |jobs|
  {
    if jobs != [] {
      StepAllKeepsRows(h, now, b, jobs[..|jobs| - 1]);
    }
  }

  /**
   * The loop itself, run against the session: updates the counters and the
   * rows as it goes, exactly as `StepAll` describes.
   */
  method StoreBatch(h: Hasher, now: int, start: seq<Job>, jobs: seq<RawJob>) returns (b: Batch)
    ensures b == StepAll(h, now, Batch(start, 0, 0, 0, false), jobs)
    ensures b.added + b.duplicates + b.errors == |jobs|
  {
    var rows := start;
    var added, duplicates, errors := 0, 0, 0;
    var broken := false;
    var i := 0;
    while i < |jobs|
      invariant 0 <= i <= |jobs|
      invariant Batch(rows, added, duplicates, errors, broken)
             == StepAll(h, now, Batch(start, 0, 0, 0, false), jobs[..i])
    {
      var j := jobs[i];
      assert StepAll(h, now, Batch(start, 0, 0, 0, false), jobs[..i + 1])
          == Step(h, now, Batch(rows, added, duplicates, errors, broken), j) by {
        assert jobs[..i + 1][..i] == jobs[..i];
      }
      if broken || Rejected(j) {
        errors := errors + 1;
      } else {
        var fp := RawFingerprint(h, j);
        var existing := FindDuplicate(rows, j.url.AsOption(), fp);
        if existing.Some? {
          var k := existing.value;
          rows := rows[k := Refresh(rows[k], now)];
          duplicates := duplicates + 1;
        } else if j.title.Value? && j.company.Value? && j.url.Value? {
          rows := rows + [NewRow(h, rows, j, now)];
          added := added + 1;
        } else {
          added := added + 1;
          broken := true;
        }
      }
      i := i + 1;
    }
    assert jobs[..i] == jobs;
    b := Batch(rows, added, duplicates, errors, broken);
    StepAllCounts(h, now, Batch(start, 0, 0, 0, false), jobs);
  }
}
