/**
 * The single-session scrape-and-store script (scripts/scrape_and_store.py):
 * storing one scraper's jobs with commit-failure re-accounting, the
 * per-source error fallback, the aggregate statistics and source resolution.
 * The jobs each source yields and whether each commit fails are inputs.
 */
module ScrapeAndStore {
  import opened Wrappers
  import opened Text
  import opened Counting
  import opened JobUtils
  import opened Ingest

  /** The sources this script knows, in registration order. */
  const Sources: seq<String> := ["doda", "green", "indeed"]

  /** `ScrapeStats`. */
  datatype ScrapeStats = ScrapeStats(source: String, totalScraped: nat, newJobs: nat, duplicates: nat, errors: nat)

  /** Every scraped job is accounted for by exactly one counter. */
  predicate Balanced(s: ScrapeStats) {
    s.newJobs + s.duplicates + s.errors == s.totalScraped
  }

  /**
   * The debug line after a duplicate or an added job slices its title, so a
   * None title raises TypeError there, after the job was counted, and the
   * handler counts one more error. A rejected job, or one meeting a broken
   * session, raises before reaching that line.
   */
  predicate LogRaises(b: Batch, j: RawJob) {
    !b.broken && !Rejected(j) && j.title.Null?
  }

  /** One iteration of the loop of `store_jobs`: the insert-or-refresh step, and one more error when the debug line raises. */
  function StoreStep(h: Hasher, now: int, b: Batch, j: RawJob): Batch {
    var s := Step(h, now, b, j);
    if LogRaises(b, j) then s.(errors := s.errors + 1) else s
  }

  /**
   * Without a None title reaching the debug line the step is `run_scraper`'s;
   * with one, the job is counted once as added or duplicate and once as an
   * error, and the rows and session change as in `run_scraper`.
   */
  lemma StoreStepCounts(h: Hasher, now: int, b: Batch, j: RawJob)
    ensures !LogRaises(b, j) ==> StoreStep(h, now, b, j) == Step(h, now, b, j)
    ensures var r := StoreStep(h, now, b, j);
            LogRaises(b, j) ==> r.errors == b.errors + 1 && r.added + r.duplicates == b.added + b.duplicates + 1
    ensures StoreStep(h, now, b, j).rows == Step(h, now, b, j).rows
    ensures StoreStep(h, now, b, j).broken == Step(h, now, b, j).broken
  {
  }

  /** The loop of `store_jobs` over a whole batch. */
  function StoreAll(h: Hasher, now: int, b: Batch, jobs: seq<RawJob>): Batch {
    if jobs == [] then b else StoreStep(h, now, StoreAll(h, now, b, jobs[..|jobs| - 1]), jobs[|jobs| - 1])
  }

  /** Number of jobs whose title is None. */
  function NullTitles(jobs: seq<RawJob>): (n: nat)
    ensures n == 0 <==> forall i :: 0 <= i < |jobs| ==> !jobs[i].title.Null?
  {
    CountWhere(jobs, (j: RawJob) => j.title.Null?)
  }

  /** The step does not look at the error counter, which it only increments. */
  lemma StepIgnoresErrors(h: Hasher, now: int, b: Batch, j: RawJob, e: nat)
    ensures Step(h, now, b.(errors := e), j)
            == Step(h, now, b, j).(errors := Step(h, now, b, j).errors - b.errors + e)
  {
  }

  /**
   * One step of `store_jobs` from a batch that differs from `run_scraper`'s
   * only in its error count differs from `run_scraper`'s step only in its
   * error count, by at most one more for a job without a title.
   */
  lemma StoreStepIsStep(h: Hasher, now: int, r: Batch, s: Batch, j: RawJob)
    requires r == s.(errors := r.errors) && s.errors <= r.errors
    ensures StoreStep(h, now, r, j) == Step(h, now, s, j).(errors := StoreStep(h, now, r, j).errors)
    ensures Step(h, now, s, j).errors - s.errors <= StoreStep(h, now, r, j).errors - r.errors
                                                 <= Step(h, now, s, j).errors - s.errors + (if j.title.Null? then 1 else 0)
  {
    StepIgnoresErrors(h, now, s, j, r.errors);
  }

  /**
   * The loop of `store_jobs` changes the table, the added and duplicate
   * counters and the session exactly as `run_scraper`'s does; it counts the
   * same errors plus at most one for each None title, and no more when
   * every title is present.
   */
  lemma {:induction false} StoreAllIsStepAll(h: Hasher, now: int, b: Batch, jobs: seq<RawJob>)
    ensures StoreAll(h, now, b, jobs) == StepAll(h, now, b, jobs).(errors := StoreAll(h, now, b, jobs).errors)
    ensures StepAll(h, now, b, jobs).errors <= StoreAll(h, now, b, jobs).errors
                                           <= StepAll(h, now, b, jobs).errors + NullTitles(jobs)
    decreases |jobs|
  {
    if jobs != [] {
      var n := |jobs| - 1;
      StoreAllIsStepAll(h, now, b, jobs[..n]);
      StoreStepIsStep(h, now, StoreAll(h, now, b, jobs[..n]), StepAll(h, now, b, jobs[..n]), jobs[n]);
    }
  }

  /**
   * The statistics `store_jobs` returns and the table afterwards. When the
   * commit fails (a failing database, or a batch with a row that cannot be
   * flushed) the session is rolled back and the jobs counted as new are
   * counted as errors instead.
   */
  function StoreJobsSpec(h: Hasher, now: int, rows: seq<Job>, source: String, jobs: seq<RawJob>,
                         commitFails: bool): (ScrapeStats, seq<Job>)
  {
    Commit(source, |jobs|, StoreAll(h, now, Batch(rows, 0, 0, 0, false), jobs), rows, commitFails)
  }

  /** The commit after the loop: kept rows and counts, or the table before the loop with the new jobs turned into errors. */
  function Commit(source: String, total: nat, b: Batch, rows: seq<Job>, commitFails: bool): (ScrapeStats, seq<Job>) {
    if commitFails || b.broken then
      (ScrapeStats(source, total, 0, b.duplicates, b.errors + b.added), rows)
    else
      (ScrapeStats(source, total, b.added, b.duplicates, b.errors), b.rows)
  }

  /**
   * `store_jobs` counts every job, whether the commit succeeds or fails, and
   * balances its counters when every title is present; each None title can
   * add one error more.
   */
  lemma StoreJobsBalanced(h: Hasher, now: int, rows: seq<Job>, source: String, jobs: seq<RawJob>,
                          commitFails: bool)
    ensures var (s, _) := StoreJobsSpec(h, now, rows, source, jobs, commitFails);
            && s.totalScraped == |jobs| && s.source == source
            && s.totalScraped <= s.newJobs + s.duplicates + s.errors <= s.totalScraped + NullTitles(jobs)
            && (NullTitles(jobs) == 0 ==> Balanced(s))
  {
    var b := Batch(rows, 0, 0, 0, false);
    StoreAllIsStepAll(h, now, b, jobs);
    StepAllCounts(h, now, b, jobs);
  }

  /**
   * A job without a title stored into an empty table: it counts as added,
   * then as an error for the debug line, and the failed commit moves the
   * added job to the errors, so one job reports two errors.
   */
  lemma NullTitleCountsTwice(h: Hasher, now: int, source: String, j: RawJob)
    requires j.title.Null? && j.company.Value? && j.url.Value? && j.board.Value?
    ensures StoreJobsSpec(h, now, [], source, [j], false) == (ScrapeStats(source, 1, 0, 0, 2), [])
  {
    var b := Batch([], 0, 0, 0, false);
    assert [j][..0] == [];
    NullColumnBreaks(h, now, b, j);
    assert StoreAll(h, now, b, [j]) == StoreStep(h, now, b, j);
  }

  /** A failed commit reports no new job, moves the would-be new jobs to errors and leaves the table as it was. */
  lemma StoreJobsCommitFailure(h: Hasher, now: int, rows: seq<Job>, source: String, jobs: seq<RawJob>)
    ensures var (failed, rows') := StoreJobsSpec(h, now, rows, source, jobs, true);
            var b := StoreAll(h, now, Batch(rows, 0, 0, 0, false), jobs);
            && failed.newJobs == 0
            && failed.errors == b.errors + b.added
            && failed.duplicates == b.duplicates
            && rows' == rows
  {
  }

  /** One iteration of the loop of `store_jobs`, run against the session. */
  method StoreOne(h: Hasher, now: int, b: Batch, j: RawJob) returns (r: Batch)
    ensures r == StoreStep(h, now, b, j)
  {
    r := b;
    if b.broken || Rejected(j) {
      r := r.(errors := r.errors + 1);
    } else {
      var existing := FindDuplicate(b.rows, j.url.AsOption(), RawFingerprint(h, j));
      if existing.Some? {
        var k := existing.value;
        r := r.(rows := b.rows[k := Refresh(b.rows[k], now)], duplicates := r.duplicates + 1);
      } else if j.title.Value? && j.company.Value? && j.url.Value? {
        r := r.(rows := b.rows + [NewRow(h, b.rows, j, now)], added := r.added + 1);
      } else {
        r := r.(added := r.added + 1, broken := true);
      }
      if j.title.Null? {
        r := r.(errors := r.errors + 1);
      }
    }
  }

  /** The loop of `store_jobs`, run against the session: the counters and rows updated job by job. */
  method StoreLoop(h: Hasher, now: int, start: seq<Job>, jobs: seq<RawJob>) returns (b: Batch)
    ensures b == StoreAll(h, now, Batch(start, 0, 0, 0, false), jobs)
  {
    b := Batch(start, 0, 0, 0, false);
    var i := 0;
    while i < |jobs|
      invariant 0 <= i <= |jobs|
      invariant b == StoreAll(h, now, Batch(start, 0, 0, 0, false), jobs[..i])
    {
      assert jobs[..i + 1][..i] == jobs[..i];
      b := StoreOne(h, now, b, jobs[i]);
      i := i + 1;
    }
    assert jobs[..i] == jobs;
  }

  /** `store_jobs` against the table: the loop over the jobs, then the commit or its rollback. */
  method StoreJobs(store: JobStore, h: Hasher, now: int, source: String, jobs: seq<RawJob>, commitFails: bool)
    returns (stats: ScrapeStats)
    modifies store
    ensures (stats, store.rows) == StoreJobsSpec(h, now, old(store.rows), source, jobs, commitFails)
  {
    var b := StoreLoop(h, now, store.rows, jobs);
    ghost var spec := Commit(source, |jobs|, b, store.rows, commitFails);
    stats := ScrapeStats(source, |jobs|, b.added, b.duplicates, b.errors);
    if commitFails || b.broken {
      stats := stats.(errors := stats.errors + stats.newJobs);
      stats := stats.(newJobs := 0);
      assert spec == (ScrapeStats(source, |jobs|, 0, b.duplicates, b.errors + b.added), store.rows);
    } else {
      assert spec == (ScrapeStats(source, |jobs|, b.added, b.duplicates, b.errors), b.rows);
      store.rows := b.rows;
    }
  }

  /** The statistics of a source whose scrape raised: one error and nothing else. */
  function ScrapeFailed(source: String): (s: ScrapeStats)
    ensures s.source == source && s.errors == 1
    ensures s.totalScraped == s.newJobs == s.duplicates == 0
  {
    ScrapeStats(source, 0, 0, 0, 1)
  }

  /** `scrape_source`: the stored statistics, or the one-error fallback when the scrape raised. */
  function ScrapeSourceSpec(h: Hasher, now: int, rows: seq<Job>, source: String, scrape: Scrape,
                            commitFails: bool): (ScrapeStats, seq<Job>)
  {
    match scrape
    case Raised(_) => (ScrapeFailed(source), rows)
    case Scraped(jobs) => StoreJobsSpec(h, now, rows, source, jobs, commitFails)
  }

  method ScrapeSource(store: JobStore, h: Hasher, now: int, source: String, scrape: Scrape, commitFails: bool)
    returns (stats: ScrapeStats)
    modifies store
    ensures (stats, store.rows) == ScrapeSourceSpec(h, now, old(store.rows), source, scrape, commitFails)
  {
    match scrape
    case Raised(_) =>
      stats := ScrapeFailed(source);
    case Scraped(jobs) =>
      stats := StoreJobs(store, h, now, source, jobs, commitFails);
  }

  /** `AggregateStats`: the statistics of every source, in the order they were added. */
  class AggregateStats {
    var sources: seq<ScrapeStats>

    constructor ()
      ensures sources == []
    {
      sources := [];
    }

    function TotalScraped(): int
      reads this
    {
      SumOf(sources, (s: ScrapeStats) => s.totalScraped)
    }

    function NewJobs(): int
      reads this
    {
      SumOf(sources, (s: ScrapeStats) => s.newJobs)
    }

    function Duplicates(): int
      reads this
    {
      SumOf(sources, (s: ScrapeStats) => s.duplicates)
    }

    function Errors(): int
      reads this
    {
      SumOf(sources, (s: ScrapeStats) => s.errors)
    }

    /** `add`: append one source's statistics; every total grows by that source's count. */
    method Add(stats: ScrapeStats)
      modifies this
      ensures sources == old(sources) + [stats]
      ensures TotalScraped() == old(TotalScraped()) + stats.totalScraped
      ensures NewJobs() == old(NewJobs()) + stats.newJobs
      ensures Duplicates() == old(Duplicates()) + stats.duplicates
      ensures Errors() == old(Errors()) + stats.errors
    {
      sources := sources + [stats];
      assert sources[..|sources| - 1] == old(sources);
    }
  }

  /** The sources a request resolves to: "all" anywhere in it means every registered source. */
  function Resolve(requested: seq<String>): (r: seq<String>)
    ensures "all" in requested ==> r == Sources
    ensures "all" !in requested ==> r == requested
  {
    if "all" in requested then Sources else requested
  }

  /** A request the script refuses without scraping: an unknown source, or a local file with several sources. */
  predicate Refused(sources: seq<String>, localHtml: Option<String>) {
    || (exists i :: 0 <= i < |sources| && sources[i] !in Sources)
    || (localHtml.Some? && localHtml.value != [] && |sources| > 1)
  }

  /** The statistics of every source scraped one after another on the shared session, and the final table. */
  function ScrapeAllSpec(h: Hasher, now: int, rows: seq<Job>, names: seq<String>,
                         scrapeOf: String -> Scrape, commitFails: String -> bool): (seq<ScrapeStats>, seq<Job>)
  {
    if names == [] then ([], rows)
    else
      var (prev, rows') := ScrapeAllSpec(h, now, rows, names[..|names| - 1], scrapeOf, commitFails);
      var name := names[|names| - 1];
      var (s, rows'') := ScrapeSourceSpec(h, now, rows', name, scrapeOf(name), commitFails(name));
      (prev + [s], rows'')
  }

  /** Number of sources whose scrape raised. */
  function RaisedCount(names: seq<String>, scrapeOf: String -> Scrape): nat {
    CountWhere(names, (n: String) => scrapeOf(n).Raised?)
  }

  /** One statistics entry per source, in the order the sources were given. */
  lemma {:induction false} ScrapeAllSources(h: Hasher, now: int, rows: seq<Job>, names: seq<String>,
                                            scrapeOf: String -> Scrape, commitFails: String -> bool)
    ensures var stats := ScrapeAllSpec(h, now, rows, names, scrapeOf, commitFails).0;
            && |stats| == |names|
            && (forall i :: 0 <= i < |names| ==> stats[i].source == names[i])
    decreases |names|
  {
    if names != [] {
      var n := |names| - 1;
      ScrapeAllSources(h, now, rows, names[..n], scrapeOf, commitFails);
      var stats := ScrapeAllSpec(h, now, rows, names, scrapeOf, commitFails).0;
      var prev := ScrapeAllSpec(h, now, rows, names[..n], scrapeOf, commitFails).0;
      assert stats[..n] == prev;
      forall i | 0 <= i < |names| ensures stats[i].source == names[i] {
        if i < n {
          assert stats[i] == prev[i];
          assert names[..n][i] == names[i];
        }
      }
    }
  }

  /** Number of jobs without a title over every source that was scraped. */
  function NullTitlesAll(names: seq<String>, scrapeOf: String -> Scrape): int {
    SumOf(names, (n: String) => if scrapeOf(n).Scraped? then NullTitles(scrapeOf(n).jobs) else 0)
  }

  /**
   * The totals account for every scraped job, plus one error for each source
   * whose scrape raised, plus at most one error for each job without a title;
   * exactly so when every title is present.
   */
  lemma {:induction false} ScrapeAllTotals(h: Hasher, now: int, rows: seq<Job>, names: seq<String>,
                                           scrapeOf: String -> Scrape, commitFails: String -> bool)
    ensures var stats := ScrapeAllSpec(h, now, rows, names, scrapeOf, commitFails).0;
            var counted := SumOf(stats, (s: ScrapeStats) => s.newJobs) + SumOf(stats, (s: ScrapeStats) => s.duplicates)
                           + SumOf(stats, (s: ScrapeStats) => s.errors);
            var expected := SumOf(stats, (s: ScrapeStats) => s.totalScraped) + RaisedCount(names, scrapeOf);
            && expected <= counted <= expected + NullTitlesAll(names, scrapeOf)
            && (NullTitlesAll(names, scrapeOf) == 0 ==> counted == expected)
    decreases |names|
  {
    if names != [] {
      var n := |names| - 1;
      ScrapeAllTotals(h, now, rows, names[..n], scrapeOf, commitFails);
      var (prev, rows') := ScrapeAllSpec(h, now, rows, names[..n], scrapeOf, commitFails);
      var name := names[n];
      var scrape := scrapeOf(name);
      if scrape.Scraped? {
        StoreJobsBalanced(h, now, rows', name, scrape.jobs, commitFails(name));
      }
      var (s, _) := ScrapeSourceSpec(h, now, rows', name, scrape, commitFails(name));
      assert (prev + [s])[..|prev|] == prev;
    }
  }

  /** The loop of `scrape_and_store`: every source scraped and stored in turn, its statistics added to the aggregate. */
  method ScrapeEach(store: JobStore, aggregate: AggregateStats, h: Hasher, now: int, sources: seq<String>,
                    scrapeOf: String -> Scrape, commitFails: String -> bool)
    requires aggregate.sources == []
    modifies store, aggregate
    ensures (aggregate.sources, store.rows) == ScrapeAllSpec(h, now, old(store.rows), sources, scrapeOf, commitFails)
  {
    var i := 0;
    while i < |sources|
      invariant 0 <= i <= |sources|
      invariant (aggregate.sources, store.rows) == ScrapeAllSpec(h, now, old(store.rows), sources[..i], scrapeOf, commitFails)
    {
      var name := sources[i];
      ghost var step := ScrapeSourceSpec(h, now, store.rows, name, scrapeOf(name), commitFails(name));
      assert ScrapeAllSpec(h, now, old(store.rows), sources[..i + 1], scrapeOf, commitFails)
          == (aggregate.sources + [step.0], step.1) by {
        assert sources[..i + 1][..i] == sources[..i];
      }
      ghost var before := aggregate.sources;
      var stats := ScrapeSource(store, h, now, name, scrapeOf(name), commitFails(name));
      assert (stats, store.rows) == step;
      aggregate.Add(stats);
      assert aggregate.sources == before + [stats];
      i := i + 1;
    }
    assert sources[..i] == sources;
  }

  /**
   * `scrape_and_store`: resolve "all", refuse an unknown source or a local
   * file with several sources (returning empty statistics), otherwise scrape
   * and store every source in order on one session.
   */
  method ScrapeAndStore(store: JobStore, h: Hasher, now: int, requested: seq<String>, localHtml: Option<String>,
                        scrapeOf: String -> Scrape, commitFails: String -> bool) returns (aggregate: AggregateStats)
    modifies store
    ensures fresh(aggregate)
    ensures Refused(Resolve(requested), localHtml) ==> aggregate.sources == [] && store.rows == old(store.rows)
    ensures !Refused(Resolve(requested), localHtml) ==>
              (aggregate.sources, store.rows)
              == ScrapeAllSpec(h, now, old(store.rows), Resolve(requested), scrapeOf, commitFails)
  {
    var sources := requested;
    if "all" in sources {
      sources := Sources;
    }
    var k := 0;
    while k < |sources|
      invariant 0 <= k <= |sources|
      invariant forall i :: 0 <= i < k ==> sources[i] in Sources
    {
      if sources[k] !in Sources {
        aggregate := new AggregateStats();
        return;
      }
      k := k + 1;
    }
    if localHtml.Some? && localHtml.value != [] && |sources| > 1 {
      aggregate := new AggregateStats();
      return;
    }
    aggregate := new AggregateStats();
    ScrapeEach(store, aggregate, h, now, sources, scrapeOf, commitFails);
  }
}
