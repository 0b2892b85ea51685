/**
 * The Doda scraper's own logic (src/scrapers/doda.py): reading a salary text,
 * the job id in a detail URL, the title with the company name removed, and
 * which articles of a results page become jobs. The HTML itself is given:
 * an article is the handful of strings `_parse_job` reads out of it.
 */
module Doda {
  import opened Wrappers
  import opened Text
  import opened Counting
  import opened SalaryScan
  import opened Listing
  import Paging

  const Board: String := "doda"
  const BaseUrl: String := "https://doda.jp"

  /** `"月給" in text or "月収" in text`. */
  predicate MonthlyMarked(s: String) {
    Contains(s, "月給") || Contains(s, "月収")
  }

  /** `"年収" in text or "予定年収" in text`. */
  predicate AnnualMarked(s: String) {
    Contains(s, "年収") || Contains(s, "予定年収")
  }

  /**
   * The figures `_parse_salary` reads: only those tagged 年収/予定年収 when
   * both kinds of marker occur; those, or failing them any `N万円`, when only
   * the annual marker occurs; any `N万円` otherwise.
   */
  function SalaryFigures(s: String): (r: seq<String>)
    ensures forall i :: 0 <= i < |r| ==> IsNumeral(r[i])
  {
    if AnnualMarked(s) && MonthlyMarked(s) then FindAnnual(s, 0)
    else if AnnualMarked(s) then
      var annual := FindAnnual(s, 0);
      if annual != [] then annual else FindNumbers(s, 0, Man)
    else FindNumbers(s, 0, Man)
  }

  /**
   * The amounts in yen: each figure without its commas times 10000, and,
   * for a text marked monthly but not annual, times 12 when below 2,500,000.
   */
  function Amounts(s: String): (r: seq<int>)
    ensures |r| == |SalaryFigures(s)|
    ensures forall i :: 0 <= i < |r| ==>
              var yen := NumeralValue(SalaryFigures(s)[i]) * 10000;
              r[i] == (if MonthlyMarked(s) && !AnnualMarked(s) && yen < 2500000 then yen * 12 else yen)
  {
    var values := Values(SalaryFigures(s));
    var yen := seq(|values|, i requires 0 <= i < |values| => values[i] * 10000);
    if MonthlyMarked(s) && !AnnualMarked(s) then Annualise(yen) else yen
  }

  /**
   * `_parse_salary`: None for a missing or empty text and for a text with no
   * figure; otherwise the least and the greatest amount.
   */
  function ParseSalary(text: Option<String>): (r: Option<(int, int)>)
    ensures text.None? || text.value == [] ==> r.None?
    ensures text.Some? && text.value != [] ==> (r.None? <==> SalaryFigures(text.value) == [])
    ensures r.Some? ==>
              var a := Amounts(text.value);
              && r.value.0 <= r.value.1
              && r.value.0 in a && r.value.1 in a
              && forall i :: 0 <= i < |a| ==> r.value.0 <= a[i] <= r.value.1
  {
    if text.None? || text.value == [] then None
    else
      var a := Amounts(text.value);
      if a == [] then None else Some(Range(a))
  }

  /** A text in which no position starts an `N万円` figure has no salary, whatever its markers. */
  lemma NoFigureNoSalary(s: String)
    requires forall q :: 0 <= q < |s| ==> NumberAt(s, q, Man).None?
    ensures ParseSalary(Some(s)).None?
  {
    FindNumbersEmpty(s, 0, Man);
    forall q | 0 <= q < |s| ensures AnnualAt(s, q).None? {
      if AnnualAt(s, q).Some? {
        assert false;
      }
    }
    FindAnnualEmpty(s, 0);
  }

  lemma AnnualExampleFirst()
    ensures AnnualAt("年収460万円～580万円", 0) == Some((2, 5))
  {
    var s := "年収460万円～580万円";
    assert At(s, 0, "年収");
    assert DigitRunEnd(s, 2) == 5;
    assert GroupChainEnd(s, 5) == 5;
  }

  lemma AnnualExampleFigures()
    ensures FindAnnual("年収460万円～580万円", 0) == [['4', '6', '0']]
  {
    var s := "年収460万円～580万円";
    assert s[2..5] == ['4', '6', '0'];
    assert forall q :: 7 <= q < |s| ==> s[q] != '年' && s[q] != '予';
    NoAnnualMarkerFrom(s, 7);
    AnnualExampleFirst();
    FindAnnualTake(s, 0, 2, 5);
  }

  lemma AnnualExampleMarkers()
    ensures AnnualMarked("年収460万円～580万円") && !MonthlyMarked("年収460万円～580万円")
  {
    var s := "年収460万円～580万円";
    assert At(s, 0, "年収");
    NotContainsFirst(s, "月給");
    NotContainsFirst(s, "月収");
  }

  lemma AnnualExampleAmounts()
    ensures Amounts("年収460万円～580万円") == [4600000]
  {
    var s := "年収460万円～580万円";
    AnnualExampleMarkers();
    AnnualExampleFigures();
    ThreeDigitValue('4', '6', '0');
    var r := Amounts(s);
    assert |r| == 1;
    assert r[0] == 4600000;
  }

  /** Only the figure tagged 年収 counts, so the range collapses to one amount. */
  lemma AnnualExample()
    ensures ParseSalary(Some("年収460万円～580万円")) == Some((4600000, 4600000))
  {
    AnnualExampleAmounts();
  }

  lemma MonthlyExampleTail()
    ensures FindNumbers("月給25万円～30万円", 6, Man) == [['3', '0']]
  {
    var s := "月給25万円～30万円";
    assert NumberAt(s, 7, Man) == Some(9) by {
      assert DigitRunEnd(s, 7) == 9;
      assert GroupChainEnd(s, 9) == 9;
    }
    assert s[7..9] == ['3', '0'];
    assert FindNumbers(s, 11, Man) == [];
  }

  lemma MonthlyExampleFirst()
    ensures NumberAt("月給25万円～30万円", 2, Man) == Some(4)
    ensures UnitAt("月給25万円～30万円", 4, Man) == 2
  {
    var s := "月給25万円～30万円";
    assert DigitRunEnd(s, 2) == 4;
    assert GroupChainEnd(s, 4) == 4;
    assert At(s, 4, "万円");
  }

  lemma MonthlyExampleHead()
    ensures FindNumbers("月給25万円～30万円", 2, Man) == [['2', '5'], ['3', '0']]
  {
    var s := "月給25万円～30万円";
    MonthlyExampleFirst();
    FindNumbersTake(s, 2, 4, Man);
    MonthlyExampleTail();
    assert s[2..4] == ['2', '5'];
  }

  lemma MonthlyExampleFigures()
    ensures FindNumbers("月給25万円～30万円", 0, Man) == [['2', '5'], ['3', '0']]
  {
    var s := "月給25万円～30万円";
    assert !IsDigit(s[0]) && !IsDigit(s[1]);
    FindNumbersSkip(s, 0, Man);
    FindNumbersSkip(s, 1, Man);
    MonthlyExampleHead();
  }

  lemma MonthlyExampleMarkers()
    ensures MonthlyMarked("月給25万円～30万円") && !AnnualMarked("月給25万円～30万円")
  {
    var s := "月給25万円～30万円";
    assert At(s, 0, "月給");
    NotContainsFirst(s, "年収");
    NotContainsFirst(s, "予定年収");
  }

  lemma MonthlyExampleAmounts()
    ensures Amounts("月給25万円～30万円") == [3000000, 3600000]
  {
    MonthlyExampleMarkers();
    MonthlyExampleFigures();
    TwoDigitValue('2', '5');
    TwoDigitValue('3', '0');
  }

  /** Monthly pay below 2,500,000 yen is multiplied by 12. */
  lemma MonthlyExample()
    ensures ParseSalary(Some("月給25万円～30万円")) == Some((3000000, 3600000))
  {
    MonthlyExampleAmounts();
  }

  /** `/j_jid__(\d+)/` matches `url` from `p`, with the digits ending at `e`. */
  predicate JobIdMatch(url: String, p: int, e: int) {
    At(url, p, "/j_jid__") && p + 8 < e && At(url, e, "/") && AllDigits(url[p + 8..e])
  }

  /** `JOB_ID_PATTERN.search` from position `p`: the leftmost match, as its start and the end of its digits. */
  function JobIdFrom(url: String, p: nat): (r: Option<(nat, nat)>)
    requires p <= |url|
    ensures r.Some? ==> p <= r.value.0 && JobIdMatch(url, r.value.0, r.value.1)
    ensures r.Some? ==> forall q, e :: p <= q < r.value.0 ==> !JobIdMatch(url, q, e)
    ensures r.None? ==> forall q, e :: p <= q ==> !JobIdMatch(url, q, e)
    decreases |url| - p
  {
    if p + 8 >= |url| then None
    else
      var d := DigitRunEnd(url, p + 8);
      if At(url, p, "/j_jid__") && p + 8 < d && At(url, d, "/") then Some((p, d))
      else
        assert forall e :: !JobIdMatch(url, p, e) by {
          forall e | JobIdMatch(url, p, e) ensures false {
            assert url[e] == url[e..e + 1][0];
            DigitRunEndAt(url, p + 8, e);
          }
        }
        JobIdFrom(url, p + 1)
  }

  /** `_extract_job_id`: the digits of the leftmost `/j_jid__digits/` in the URL, or None. */
  function ExtractJobId(url: String): (r: Option<String>)
    ensures r.Some? ==> |r.value| > 0 && AllDigits(r.value)
    ensures r.Some? ==> exists p, e :: JobIdMatch(url, p, e) && r.value == url[p + 8..e]
                                       && forall q, f :: 0 <= q < p ==> !JobIdMatch(url, q, f)
    ensures r.None? <==> forall p, e :: !JobIdMatch(url, p, e)
  {
    match JobIdFrom(url, 0)
    case Some((p, e)) => Some(url[p + 8..e])
    case None => None
  }

  /** A detail path `/j_jid__N/` gives back its digits. */
  lemma JobIdOfDetailPath(digits: String, rest: String)
    requires |digits| > 0 && AllDigits(digits)
    ensures ExtractJobId("/j_jid__" + digits + "/" + rest) == Some(digits)
  {
    var url := "/j_jid__" + digits + "/" + rest;
    var e := 8 + |digits|;
    assert url[..8] == "/j_jid__";
    assert url[8..e] == digits;
    assert url[e..e + 1] == "/";
    assert JobIdMatch(url, 0, e);
    assert url[e] == '/';
    DigitRunEndAt(url, 8, e);
  }

  /** The title with a leading company name removed and the rest stripped. */
  function TitleWithoutCompany(rawTitle: String, company: Option<String>): (title: String)
    ensures |title| <= |rawTitle|
    ensures company.None? || company.value == [] || !StartsWith(rawTitle, company.value) ==> title == rawTitle
    ensures company.Some? && company.value != [] && StartsWith(rawTitle, company.value) ==> IsStripped(title)
  {
    if company.Some? && company.value != [] && StartsWith(rawTitle, company.value) then
      Strip(rawTitle[|company.value|..])
    else rawTitle
  }

  /** A title written after the company name and some whitespace comes back exactly. */
  lemma CompanyPrefixRemoved(company: String, pad: String, title: String)
    requires company != []
    requires forall i :: 0 <= i < |pad| ==> IsSpace(pad[i])
    requires IsStripped(title)
    ensures TitleWithoutCompany(company + pad + title, Some(company)) == title
  {
    var raw := company + pad + title;
    assert raw[..|company|] == company;
    assert raw[|company|..] == pad + title;
    StripAfterSpaces(pad, title);
  }

  /** The job-detail link of an article: its `href` and its stripped text. */
  datatype DetailLink = DetailLink(href: String, text: String)

  /**
   * What `_parse_job` reads from an `<article>`: the stripped `<h2>` text, the
   * first link to a job detail page, the 勤務地 and 給与 values and the body text.
   */
  datatype Article = Article(
    company: Option<String>,
    detailLink: Option<DetailLink>,
    location: Option<String>,
    salaryText: Option<String>,
    body: Option<String>)

  /**
   * `_parse_job`, with the way a relative URL is made absolute as a parameter
   * (the browser scraper concatenates where this one calls `urljoin`).
   */
  function ParseArticle(a: Article, absolute: String -> String, board: String): (r: Option<Listing>)
    ensures a.detailLink.None? ==> r.None?
    ensures a.detailLink.Some? ==>
              var href := a.detailLink.value.href;
              var url := if StartsWith(href, "http") then href else absolute(href);
              && (r.None? <==> ExtractJobId(url).None?)
              && (r.Some? ==> r.value.url == url && Some(r.value.jobId) == ExtractJobId(url))
    ensures r.Some? ==> r.value.title == Some(TitleWithoutCompany(a.detailLink.value.text, a.company))
    ensures r.Some? ==> r.value.company == a.company && r.value.board == board
    ensures r.Some? ==> r.value.location == a.location && r.value.salaryText == a.salaryText
    ensures r.Some? ==> r.value.description == a.body.GetOr("")
    ensures r.Some? ==> r.value.salaryMin == (if ParseSalary(a.salaryText).Some? then Some(ParseSalary(a.salaryText).value.0) else None)
    ensures r.Some? ==> r.value.salaryMax == (if ParseSalary(a.salaryText).Some? then Some(ParseSalary(a.salaryText).value.1) else None)
    ensures r.Some? ==> (r.value.salaryMin.Some? <==> r.value.salaryMax.Some?)
    ensures r.Some? && r.value.salaryMin.Some? ==> r.value.salaryMin.value <= r.value.salaryMax.value
  {
    match a.detailLink
    case None => None
    case Some(link) =>
      var url := if StartsWith(link.href, "http") then link.href else absolute(link.href);
      match ExtractJobId(url)
      case None => None
      case Some(id) =>
        var salary := ParseSalary(a.salaryText);
        Some(Listing(
          id,
          Some(TitleWithoutCompany(link.text, a.company)),
          a.company,
          a.location,
          a.salaryText,
          if salary.Some? then Some(salary.value.0) else None,
          if salary.Some? then Some(salary.value.1) else None,
          url,
          board,
          a.body.GetOr("")))
  }

  /** `_parse_job` of this scraper: relative URLs go through `urljoin(BASE_URL, url)`. */
  function ParseJob(a: Article, urljoin: (String, String) -> String): (r: Option<Listing>)
    ensures r.Some? <==> a.detailLink.Some? && ExtractJobId(
              if StartsWith(a.detailLink.value.href, "http") then a.detailLink.value.href
              else urljoin(BaseUrl, a.detailLink.value.href)).Some?
    ensures r.Some? ==> r.value.board == Board
  {
    ParseArticle(a, href => urljoin(BaseUrl, href), Board)
  }

  /** `_get_next_page_url`: the `href` of the "次" link, made absolute, when it is not empty. */
  function NextPageUrl(nextHref: Option<String>, urljoin: (String, String) -> String): (r: Option<String>)
    ensures r.Some? <==> nextHref.Some? && nextHref.value != []
    ensures r.Some? && StartsWith(nextHref.value, "http") ==> r.value == nextHref.value
  {
    match nextHref
    case None => None
    case Some(href) =>
      if href == [] then None
      else if StartsWith(href, "http") then Some(href)
      else Some(urljoin(BaseUrl, href))
  }

  /** `_parse_job` with the URL joiner fixed, as one function of an article. */
  function ParseWith(urljoin: (String, String) -> String): Article -> Option<Listing> {
    a => ParseJob(a, urljoin)
  }

  /** `_parse_page`: the articles that parse, in order, and the next page's URL. */
  function ParsePage(articles: seq<Article>, nextHref: Option<String>, urljoin: (String, String) -> String)
    : (p: Paging.Page<String, Listing>)
    ensures |p.jobs| <= |articles|
    ensures forall i :: 0 <= i < |articles| && ParseJob(articles[i], urljoin).Some? ==>
              ParseJob(articles[i], urljoin).value in p.jobs
    ensures forall i :: 0 <= i < |p.jobs| ==> p.jobs[i].board == Board
    ensures p.next.Some? <==> nextHref.Some? && nextHref.value != []
  {
    var jobs := Collect(articles, ParseWith(urljoin));
    assert forall i :: 0 <= i < |jobs| ==> jobs[i].board == Board by {
      forall i | 0 <= i < |jobs| ensures jobs[i].board == Board {
        var j :| 0 <= j < |articles| && ParseJob(articles[j], urljoin) == Some(jobs[i]);
      }
    }
    Paging.Page(jobs, NextPageUrl(nextHref, urljoin))
  }

  /** Every job of a page is what some article of it parses to. */
  lemma ParsePageOnlyParsed(articles: seq<Article>, nextHref: Option<String>, urljoin: (String, String) -> String)
    ensures var jobs := ParsePage(articles, nextHref, urljoin).jobs;
            forall i :: 0 <= i < |jobs| ==> exists j :: 0 <= j < |articles| && ParseJob(articles[j], urljoin) == Some(jobs[i])
  {
    var jobs := ParsePage(articles, nextHref, urljoin).jobs;
    assert jobs == Collect(articles, ParseWith(urljoin));
    forall i | 0 <= i < |jobs|
      ensures exists j :: 0 <= j < |articles| && ParseJob(articles[j], urljoin) == Some(jobs[i])
    {
      var j :| 0 <= j < |articles| && ParseWith(urljoin)(articles[j]) == Some(jobs[i]);
    }
  }

  /**
   * The jobs of a page are read article by article, in document order: those
   * of the first articles come before those of the rest, and an article
   * contributes its job exactly when it parses.
   */
  lemma ParsePageInOrder(first: seq<Article>, rest: seq<Article>, a: Article,
                         nextHref: Option<String>, urljoin: (String, String) -> String)
    ensures ParsePage(first + rest, nextHref, urljoin).jobs
            == ParsePage(first, nextHref, urljoin).jobs + ParsePage(rest, nextHref, urljoin).jobs
    ensures ParsePage([a], nextHref, urljoin).jobs
            == if ParseJob(a, urljoin).Some? then [ParseJob(a, urljoin).value] else []
  {
    CollectAppend(first, rest, ParseWith(urljoin));
    CollectOne(a, ParseWith(urljoin));
  }

  // ---------------------------------------------------------------------------
  // Search

  const SearchUrl: String := "https://doda.jp/DodaFront/View/JobSearchList.action"

  /** `_build_search_url`'s query: the terms joined by spaces as `k`, then the six fixed settings. */
  function SearchParams(keywords: seq<String>, location: Option<String>): (params: seq<(String, String)>)
    ensures |params| == 7 && params[0] == ("k", Join(SearchTerms(keywords, location), " "))
  {
    [("k", Join(SearchTerms(keywords, location), " ")),
     ("kwc", "1"), ("ss", "1"), ("pic", "1"), ("ds", "0"), ("so", "50"), ("tp", "1")]
  }

  /** A location is searched for as one more keyword, after a space. */
  lemma LocationIsKeyword(keywords: seq<String>, location: String)
    requires keywords != [] && location != []
    ensures SearchParams(keywords, Some(location))[0].1 == Join(keywords, " ") + " " + location
  {
    JoinSnoc(keywords, location, " ");
  }

  /** `_build_search_url`, with the query encoding as a parameter. */
  function BuildSearchUrl(keywords: seq<String>, location: Option<String>,
                          urlencode: seq<(String, String)> -> String): (url: String)
    ensures StartsWith(url, SearchUrl + "?")
    ensures url[|SearchUrl| + 1..] == urlencode(SearchParams(keywords, location))
  {
    var url := SearchUrl + "?" + urlencode(SearchParams(keywords, location));
    assert url[..|SearchUrl| + 1] == SearchUrl + "?";
    url
  }

  /** `search`: the shared page loop, started at the search URL, over at most `max_pages` pages. */
  method Search(keywords: seq<String>, location: Option<String>, maxPages: int,
                urlencode: seq<(String, String)> -> String,
                pages: String -> Option<Paging.Page<String, Listing>>)
    returns (jobs: seq<Listing>, ghost visits: seq<Paging.Visit<String, Listing>>)
    ensures visits == Paging.Trace(Paging.ByPosition(pages), BuildSearchUrl(keywords, location, urlencode), 0,
                                   if maxPages < 0 then 0 else maxPages)
    ensures jobs == Paging.AllJobs(
              Paging.Trace(Paging.ByPosition(pages), BuildSearchUrl(keywords, location, urlencode), 0,
                           if maxPages < 0 then 0 else maxPages))
    ensures |visits| <= (if maxPages < 0 then 0 else maxPages)
  {
    jobs, visits := Paging.Search(Paging.ByPosition(pages), BuildSearchUrl(keywords, location, urlencode), maxPages);
  }
}
