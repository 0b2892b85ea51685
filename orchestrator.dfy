/**
 * The multi-board orchestrator (scripts/scrape_all_boards.py): per-scraper
 * configuration, running each enabled scraper against the job table, the
 * aggregate report and the `--only` switch. Scrapers run one after another;
 * each one's search result is an input.
 */
module Orchestrator {
  import opened Wrappers
  import opened Text
  import opened Counting
  import opened JobUtils
  import opened Ingest

  /** The registered scrapers, in registration order. */
  const Registry: seq<String> := ["doda", "green", "indeed", "wantedly"]

  /** Settings that can appear both globally and for one scraper; absent keys are None. */
  datatype Settings = Settings(
    keywords: Option<seq<String>>,
    location: Option<String>,
    maxPages: Option<int>,
    delayRange: Option<seq<real>>)

  const NoSettings := Settings(None, None, None, None)

  /** One entry of the `scrapers` section. */
  datatype Section = Section(enabled: Option<bool>, settings: Settings)

  /** The configuration file: the `global` section and the per-scraper sections. */
  datatype Config = Config(global: Settings, scrapers: map<String, Section>)

  /** The settings a scraper runs with. */
  datatype ScraperConfig = ScraperConfig(keywords: seq<String>, location: String, maxPages: int, delayRange: seq<real>)

  const DefaultKeywords: seq<String> := ["デザイナー"]
  const DefaultLocation: String := "東京"
  const DefaultMaxPages := 2
  const DefaultDelayRange: seq<real> := [2.0, 3.0]

  /** The `scrapers` entry for `name`, or an empty one. */
  function SectionOf(config: Config, name: String): Section {
    if name in config.scrapers then config.scrapers[name] else Section(None, NoSettings)
  }

  /** The value the first present source gives, else the default. */
  function Pick<T>(own: Option<T>, global: Option<T>, default: T): (r: T)
    ensures own.Some? ==> r == own.value
    ensures own.None? && global.Some? ==> r == global.value
    ensures own.None? && global.None? ==> r == default
  {
    if own.Some? then own.value else global.GetOr(default)
  }

  /**
   * `get_scraper_config`: each setting comes from the scraper's own section
   * when present there, else from the global section, else the built-in default.
   */
  function GetScraperConfig(config: Config, name: String): (r: ScraperConfig)
    ensures var own := SectionOf(config, name).settings;
            && r.keywords == Pick(own.keywords, config.global.keywords, DefaultKeywords)
            && r.location == Pick(own.location, config.global.location, DefaultLocation)
            && r.maxPages == Pick(own.maxPages, config.global.maxPages, DefaultMaxPages)
            && r.delayRange == Pick(own.delayRange, config.global.delayRange, DefaultDelayRange)
  {
    var own := SectionOf(config, name).settings;
    var g := config.global;
    var merged := ScraperConfig(g.keywords.GetOr(DefaultKeywords), g.location.GetOr(DefaultLocation),
                                g.maxPages.GetOr(DefaultMaxPages), g.delayRange.GetOr(DefaultDelayRange));
    var merged := if own.keywords.Some? then merged.(keywords := own.keywords.value) else merged;
    var merged := if own.location.Some? then merged.(location := own.location.value) else merged;
    var merged := if own.maxPages.Some? then merged.(maxPages := own.maxPages.value) else merged;
    if own.delayRange.Some? then merged.(delayRange := own.delayRange.value) else merged
  }

  /** With no per-scraper and no global settings, a scraper runs with the built-in defaults. */
  lemma EmptyConfigGivesDefaults(name: String)
    ensures GetScraperConfig(Config(NoSettings, map[]), name)
         == ScraperConfig(DefaultKeywords, DefaultLocation, DefaultMaxPages, DefaultDelayRange)
  {
  }

  /** A scraper without its own settings runs with the global settings wherever they are given. */
  lemma NoSectionFollowsGlobal(config: Config, name: String)
    requires name !in config.scrapers
    ensures GetScraperConfig(config, name).keywords == config.global.keywords.GetOr(DefaultKeywords)
    ensures GetScraperConfig(config, name).location == config.global.location.GetOr(DefaultLocation)
    ensures GetScraperConfig(config, name).maxPages == config.global.maxPages.GetOr(DefaultMaxPages)
    ensures GetScraperConfig(config, name).delayRange == config.global.delayRange.GetOr(DefaultDelayRange)
  {
  }

  // ---------------------------------------------------------------------------
  // Results
  // ---------------------------------------------------------------------------

  /** `ScraperResult`, without the duration. */
  datatype ScraperResult = ScraperResult(
    name: String,
    success: bool,
    scraped: nat,
    added: nat,
    duplicates: nat,
    errors: nat,
    errorMessage: Option<String>)

  /** Every scraped job is accounted for by exactly one counter. */
  predicate Balanced(r: ScraperResult) {
    r.added + r.duplicates + r.errors == r.scraped
  }

  /** The result of a scraper that raised: unsuccessful, every counter zero. */
  function FailedResult(name: String, message: String): (r: ScraperResult)
    ensures !r.success && r.errorMessage == Some(message) && r.name == name
    ensures r.scraped == r.added == r.duplicates == r.errors == 0
  {
    ScraperResult(name, false, 0, 0, 0, 0, Some(message))
  }

  /** `OrchestratorResult`, without the duration. */
  datatype OrchestratorResult = OrchestratorResult(results: seq<ScraperResult>) {
    function TotalScraped(): int { SumOf(results, (r: ScraperResult) => r.scraped) }
    function TotalAdded(): int { SumOf(results, (r: ScraperResult) => r.added) }
    function TotalDuplicates(): int { SumOf(results, (r: ScraperResult) => r.duplicates) }
    function TotalErrors(): int { SumOf(results, (r: ScraperResult) => r.errors) }
    function SuccessfulScrapers(): nat { CountWhere(results, (r: ScraperResult) => r.success) }
    function FailedScrapers(): nat { CountWhere(results, (r: ScraperResult) => !r.success) }
  }

  /** Every scraper is either successful or failed. */
  lemma SuccessfulPlusFailed(o: OrchestratorResult)
    ensures o.SuccessfulScrapers() + o.FailedScrapers() == |o.results|
  {
    CountComplement(o.results, (r: ScraperResult) => r.success, (r: ScraperResult) => !r.success);
  }

  /** When every result is balanced, so are the totals. */
  lemma {:induction false} TotalsBalanced(results: seq<ScraperResult>)
    requires forall i :: 0 <= i < |results| ==> Balanced(results[i])
    ensures var o := OrchestratorResult(results);
            o.TotalAdded() + o.TotalDuplicates() + o.TotalErrors() == o.TotalScraped()
    decreases |results|
  {
    if results != [] {
      TotalsBalanced(results[..|results| - 1]);
    }
  }

  /** Appending one result adds its counters to the totals. */
  lemma TotalsAppend(results: seq<ScraperResult>, r: ScraperResult)
    ensures var o, o' := OrchestratorResult(results), OrchestratorResult(results + [r]);
            && o'.TotalScraped() == o.TotalScraped() + r.scraped
            && o'.TotalAdded() == o.TotalAdded() + r.added
            && o'.TotalDuplicates() == o.TotalDuplicates() + r.duplicates
            && o'.TotalErrors() == o.TotalErrors() + r.errors
            && o'.SuccessfulScrapers() == o.SuccessfulScrapers() + (if r.success then 1 else 0)
            && o'.FailedScrapers() == o.FailedScrapers() + (if r.success then 0 else 1)
  {
    assert (results + [r])[..|results|] == results;
  }

  // ---------------------------------------------------------------------------
  // run_scraper
  // ---------------------------------------------------------------------------

  /** The message a commit raises when a row with a null NOT NULL column is flushed. */
  const NotNullViolation: String := "NOT NULL constraint failed"

  /**
   * What `run_scraper` returns and what the table holds afterwards. A scrape
   * that raised, or a commit that fails, gives a failed result and leaves the
   * table as it was; otherwise the batch's counters and rows are kept.
   */
  function RunScraperSpec(h: Hasher, now: int, rows: seq<Job>, name: String, scrape: Scrape,
                          commitError: Option<String>): (ScraperResult, seq<Job>)
  {
    match scrape
    case Raised(msg) => (FailedResult(name, msg), rows)
    case Scraped(jobs) =>
      var b := StepAll(h, now, Batch(rows, 0, 0, 0, false), jobs);
      if commitError.Some? then (FailedResult(name, commitError.value), rows)
      else if b.broken then (FailedResult(name, NotNullViolation), rows)
      else (ScraperResult(name, true, |jobs|, b.added, b.duplicates, b.errors, None), b.rows)
  }

  /** Every result `run_scraper` returns is balanced, and a successful one reports every scraped job. */
  lemma RunScraperBalanced(h: Hasher, now: int, rows: seq<Job>, name: String, scrape: Scrape,
                           commitError: Option<String>)
    ensures var (r, _) := RunScraperSpec(h, now, rows, name, scrape, commitError);
            && Balanced(r) && r.name == name
            && (r.success <==> r.errorMessage.None?)
            && (r.success ==> scrape.Scraped? && r.scraped == |scrape.jobs|)
  {
    if scrape.Scraped? {
      StepAllCounts(h, now, Batch(rows, 0, 0, 0, false), scrape.jobs);
    }
  }

  /** A failed run leaves the table untouched; a successful one keeps its URLs and keys unique. */
  lemma RunScraperTable(h: Hasher, now: int, rows: seq<Job>, name: String, scrape: Scrape,
                        commitError: Option<String>)
    requires UniqueUrls(rows) && UniqueIds(rows)
    ensures var (r, rows') := RunScraperSpec(h, now, rows, name, scrape, commitError);
            && (!r.success ==> rows' == rows)
            && UniqueUrls(rows') && UniqueIds(rows')
  {
    if scrape.Scraped? {
      StepAllKeepsUnique(h, now, Batch(rows, 0, 0, 0, false), scrape.jobs);
    }
  }

  /** `run_scraper` against the table. */
  method RunScraper(store: JobStore, h: Hasher, now: int, name: String, scrape: Scrape,
                    commitError: Option<String>) returns (r: ScraperResult)
    modifies store
    ensures (r, store.rows) == RunScraperSpec(h, now, old(store.rows), name, scrape, commitError)
  {
    match scrape
    case Raised(msg) =>
      r := FailedResult(name, msg);
    case Scraped(jobs) =>
      var b := StoreBatch(h, now, store.rows, jobs);
      if commitError.Some? {
        r := FailedResult(name, commitError.value);
      } else if b.broken {
        r := FailedResult(name, NotNullViolation);
      } else {
        store.rows := b.rows;
        r := ScraperResult(name, true, |jobs|, b.added, b.duplicates, b.errors, None);
      }
  }

  // ---------------------------------------------------------------------------
  // run_all_scrapers and main's --only
  // ---------------------------------------------------------------------------

  /** A scraper is enabled unless its section says `enabled: false`. */
  predicate Enabled(config: Config, name: String) {
    SectionOf(config, name).enabled.GetOr(true)
  }

  /** The enabled registered scrapers, in registration order. */
  function EnabledScrapers(config: Config, names: seq<String>): (r: seq<String>)
    ensures |r| <= |names|
    ensures forall x :: x in r <==> x in names && Enabled(config, x)
  {
    if names == [] then []
    else
      var rest := EnabledScrapers(config, names[1..]);
      assert forall x :: x in names <==> x == names[0] || x in names[1..];
      if Enabled(config, names[0]) then [names[0]] + rest else rest
  }

  /** The search each scraper's run produces, given the settings it runs with. */
  type Searcher = (String, ScraperConfig) -> Scrape

  /** The results and final table after running `names` one after another. */
  function RunAllSpec(h: Hasher, now: int, rows: seq<Job>, config: Config, names: seq<String>,
                      search: Searcher, commitError: String -> Option<String>): (seq<ScraperResult>, seq<Job>)
  {
    if names == [] then ([], rows)
    else
      var (prev, rows') := RunAllSpec(h, now, rows, config, names[..|names| - 1], search, commitError);
      var name := names[|names| - 1];
      var (r, rows'') := RunScraperSpec(h, now, rows', name, search(name, GetScraperConfig(config, name)),
                                        commitError(name));
      (prev + [r], rows'')
  }

  /** One result per scraper run, named after it and in the same order, each of them balanced. */
  lemma {:induction false} RunAllResults(h: Hasher, now: int, rows: seq<Job>, config: Config, names: seq<String>,
                                         search: Searcher, commitError: String -> Option<String>)
    ensures var (results, _) := RunAllSpec(h, now, rows, config, names, search, commitError);
            && |results| == |names|
            && (forall i :: 0 <= i < |names| ==> results[i].name == names[i] && Balanced(results[i]))
    decreases |names|
  {
    if names != [] {
      var n := |names| - 1;
      RunAllResults(h, now, rows, config, names[..n], search, commitError);
      var (prev, rows') := RunAllSpec(h, now, rows, config, names[..n], search, commitError);
      var name := names[n];
      RunScraperBalanced(h, now, rows', name, search(name, GetScraperConfig(config, name)), commitError(name));
    }
  }

  /**
   * `run_all_scrapers`, sequential path: runs every enabled scraper in
   * registration order and collects one result from each; with none enabled
   * the result is empty.
   */
  method RunAllScrapers(store: JobStore, h: Hasher, now: int, config: Config, search: Searcher,
                        commitError: String -> Option<String>) returns (result: OrchestratorResult)
    modifies store
    ensures (result.results, store.rows)
         == RunAllSpec(h, now, old(store.rows), config, EnabledScrapers(config, Registry), search, commitError)
  {
    var enabled := EnabledScrapers(config, Registry);
    var results: seq<ScraperResult> := [];
    if enabled == [] {
      return OrchestratorResult(results);
    }
    var i := 0;
    while i < |enabled|
      invariant 0 <= i <= |enabled|
      invariant (results, store.rows) == RunAllSpec(h, now, old(store.rows), config, enabled[..i], search, commitError)
    {
      assert enabled[..i + 1][..i] == enabled[..i];
      var name := enabled[i];
      var r := RunScraper(store, h, now, name, search(name, GetScraperConfig(config, name)), commitError(name));
      results := results + [r];
      i := i + 1;
    }
    assert enabled[..i] == enabled;
    result := OrchestratorResult(results);
  }

  /** The whole run's totals balance, and its scrapers split into successful and failed. */
  lemma RunAllTotals(h: Hasher, now: int, rows: seq<Job>, config: Config, search: Searcher,
                     commitError: String -> Option<String>)
    ensures var o := OrchestratorResult(RunAllSpec(h, now, rows, config, EnabledScrapers(config, Registry),
                                                   search, commitError).0);
            && |o.results| == |EnabledScrapers(config, Registry)|
            && o.TotalAdded() + o.TotalDuplicates() + o.TotalErrors() == o.TotalScraped()
            && o.SuccessfulScrapers() + o.FailedScrapers() == |o.results|
  {
    var names := EnabledScrapers(config, Registry);
    var o := OrchestratorResult(RunAllSpec(h, now, rows, config, names, search, commitError).0);
    RunAllResults(h, now, rows, config, names, search, commitError);
    TotalsBalanced(o.results);
    SuccessfulPlusFailed(o);
  }

  /** `--only`: every registered scraper not listed gets `enabled: false`; an empty list changes nothing. */
  function ApplyOnly(config: Config, only: seq<String>): (r: Config)
    ensures r.global == config.global
  {
    if only == [] then config else DisableAllBut(config, Registry, only)
  }

  function DisableAllBut(config: Config, names: seq<String>, only: seq<String>): (r: Config)
    ensures r.global == config.global
    ensures forall x :: x !in names ==> SectionOf(r, x) == SectionOf(config, x)
    ensures forall x :: x in names ==>
              SectionOf(r, x).settings == SectionOf(config, x).settings
              && (Enabled(r, x) <==> x in only && Enabled(config, x))
  {
    if names == [] then config
    else
      var c := DisableAllBut(config, names[1..], only);
      var name := names[0];
      if name in only then c
      else
        var section := SectionOf(c, name);
        Config(c.global, c.scrapers[name := section.(enabled := Some(false))])
  }

  /** After `--only`, exactly the listed scrapers that were enabled still run, in registration order. */
  lemma OnlyRunsListed(config: Config, only: seq<String>)
    requires only != []
    ensures forall x :: x in EnabledScrapers(ApplyOnly(config, only), Registry)
              <==> x in Registry && x in only && Enabled(config, x)
  {
  }

  /** The exit status of `main`: 1 when any scraper failed, else 0. */
  function ExitStatus(o: OrchestratorResult): (code: int)
    ensures code == 1 <==> exists i :: 0 <= i < |o.results| && !o.results[i].success
    ensures code == 0 || code == 1
  {
    if o.FailedScrapers() > 0 then 1 else 0
  }
}
