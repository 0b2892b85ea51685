/** The job dict every scraper's `_parse_job` returns, and how the ingestion loop reads it. */
module Listing {
  import opened Wrappers
  import opened Text
  import Ingest

  /** The ten keys of a scraped job. `title` can be None only for Green. */
  datatype Listing = Listing(
    jobId: String,
    title: Option<String>,
    company: Option<String>,
    location: Option<String>,
    salaryText: Option<String>,
    salaryMin: Option<int>,
    salaryMax: Option<int>,
    url: String,
    board: String,
    description: String)

  /** The listing as the ingestion loop sees it: every key is present, so only None values differ from strings. */
  function ToRawJob(l: Listing): (j: Ingest.RawJob)
    ensures !Ingest.Rejected(j)
    ensures j.url == Ingest.Value(l.url) && j.board == Ingest.Value(l.board)
    ensures j.title.Value? <==> l.title.Some?
    ensures j.company.Value? <==> l.company.Some?
  {
    Ingest.RawJob(
      if l.title.Some? then Ingest.Value(l.title.value) else Ingest.Null,
      if l.company.Some? then Ingest.Value(l.company.value) else Ingest.Null,
      Ingest.Value(l.url),
      Ingest.Value(l.board),
      Some(l.description),
      l.salaryText,
      l.salaryMin,
      l.salaryMax,
      l.location)
  }

  /**
   * The search terms of the Doda and Wantedly browser scrapers: the keywords,
   * with the location after them when it is given and not empty.
   */
  function SearchTerms(keywords: seq<String>, location: Option<String>): (r: seq<String>)
    ensures |r| == |keywords| + (if location.Some? && location.value != [] then 1 else 0)
    ensures r[..|keywords|] == keywords
    ensures |r| > |keywords| ==> r[|keywords|] == location.value
  {
    if location.Some? && location.value != [] then keywords + [location.value] else keywords
  }
}
