/**
 * The browser-driven Doda scraper (src/scrapers/doda_browser.py). Its salary
 * parsing is the same as the plain scraper's (`Doda.ParseSalary`); what
 * differs is how relative URLs are completed and that it moves from page to
 * page by clicking a "次" control instead of following a URL.
 */
module DodaBrowser {
  import opened Wrappers
  import opened Text
  import opened Counting
  import opened Listing
  import Doda
  import Paging

  const BaseUrl: String := "https://doda.jp"

  /** The detail URL made absolute: `BASE_URL` and the path, with a "/" put between only when the path lacks one. */
  function AbsoluteUrl(url: String): (r: String)
    ensures StartsWith(url, "http") ==> r == url
    ensures !StartsWith(url, "http") ==>
              r == BaseUrl + "/" + (if StartsWith(url, "/") then url[1..] else url)
    ensures StartsWith(r, "http")
  {
    if StartsWith(url, "http") then url
    else if StartsWith(url, "/") then
      assert url == "/" + url[1..];
      BaseUrl + url
    else BaseUrl + "/" + url
  }

  /** Completing a URL twice is completing it once. */
  lemma AbsoluteUrlIdempotent(url: String)
    ensures AbsoluteUrl(AbsoluteUrl(url)) == AbsoluteUrl(url)
  {
  }

  /**
   * `_parse_page`'s next URL: the `href` of the "次" link when it is not empty,
   * kept if it starts with "http" and otherwise put straight after `BASE_URL`.
   */
  function NextUrl(nextHref: Option<String>): (r: Option<String>)
    ensures r.Some? <==> nextHref.Some? && nextHref.value != []
    ensures r.Some? ==> EndsWith(r.value, nextHref.value)
    ensures r.Some? && !StartsWith(nextHref.value, "http") ==> StartsWith(r.value, BaseUrl)
    ensures r.Some? ==> StartsWith(r.value, "http")
  {
    match nextHref
    case None => None
    case Some(href) =>
      if href == [] then None
      else if StartsWith(href, "http") then Some(href)
      else
        var r := BaseUrl + href;
        assert r[|r| - |href|..] == href;
        assert r[..4] == "http";
        Some(r)
  }

  /** Unlike `AbsoluteUrl`, `NextUrl` adds no "/": a relative `href` without one is glued to the host name. */
  lemma NextUrlAddsNoSlash(href: String)
    requires href != [] && !StartsWith(href, "http") && !StartsWith(href, "/")
    ensures NextUrl(Some(href)).value != AbsoluteUrl(href)
  {
    var a := NextUrl(Some(href)).value;
    var b := AbsoluteUrl(href);
    assert a[|BaseUrl|] == href[0];
    assert b[|BaseUrl|] == '/';
  }

  /** `_parse_job`: the plain scraper's rules, with `AbsoluteUrl` for relative URLs. */
  function ParseJob(a: Doda.Article): (r: Option<Listing>)
    ensures r.Some? <==> a.detailLink.Some? && Doda.ExtractJobId(AbsoluteUrl(a.detailLink.value.href)).Some?
    ensures r.Some? ==> StartsWith(r.value.url, "http") && r.value.board == Doda.Board
    ensures r.Some? ==> r.value.title == Some(Doda.TitleWithoutCompany(a.detailLink.value.text, a.company))
    ensures r.Some? ==> r.value.company == a.company && r.value.location == a.location
    ensures r.Some? ==> r.value.salaryText == a.salaryText && r.value.description == a.body.GetOr("")
    ensures r.Some? ==> r.value.salaryMin == (if Doda.ParseSalary(a.salaryText).Some? then Some(Doda.ParseSalary(a.salaryText).value.0) else None)
    ensures r.Some? ==> r.value.salaryMax == (if Doda.ParseSalary(a.salaryText).Some? then Some(Doda.ParseSalary(a.salaryText).value.1) else None)
  {
    Doda.ParseArticle(a, AbsoluteUrl, Doda.Board)
  }

  /** What the browser shows after a number of clicks: a timeout, or the articles and whether a "次" control is visible. */
  datatype View = Timeout | Shown(articles: seq<Doda.Article>, nextVisible: bool)

  /** One round of the browser loop, as a page for the shared page loop: the position is the number of clicks so far. */
  function Load(views: nat -> View): (nat, nat) -> Option<Paging.Page<nat, Listing>> {
    (clicks: nat, round: nat) =>
      match views(clicks)
      case Timeout => None
      case Shown(articles, visible) =>
        Some(Paging.Page(Collect(articles, ParseJob), if visible then Some(clicks + 1) else None))
  }

  /**
   * `search`'s page loop: wait for the articles (a timeout ends the loop),
   * parse and keep the jobs, then click "次" if it is visible and pages
   * remain, otherwise stop. At most `max_pages` views are parsed.
   */
  method Search(views: nat -> View, maxPages: int) returns (jobs: seq<Listing>, ghost visits: seq<Paging.Visit<nat, Listing>>)
    ensures visits == Paging.Trace(Load(views), 0, 0, if maxPages < 0 then 0 else maxPages)
    ensures jobs == Paging.AllJobs(Paging.Trace(Load(views), 0, 0, if maxPages < 0 then 0 else maxPages))
    ensures |visits| <= (if maxPages < 0 then 0 else maxPages)
  {
    jobs, visits := Paging.Search(Load(views), 0, maxPages);
  }
}
