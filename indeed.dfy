/**
 * The Indeed Japan scraper (src/scrapers/indeed.py): reading a salary text,
 * picking the salary line out of a job card, which cards become jobs, and the
 * next-page link. A job card is given as the handful of strings `_parse_job`
 * reads out of its HTML.
 */
module Indeed {
  import opened Wrappers
  import opened Text
  import opened Counting
  import opened SalaryScan
  import opened Listing
  import Paging

  const Board: String := "indeed"
  const BaseUrl: String := "https://jp.indeed.com"
  const SearchUrl: String := "https://jp.indeed.com/jobs"

  /** `"月給" in text or "月収" in text`. */
  predicate MonthlyMarked(s: String) {
    Contains(s, "月給") || Contains(s, "月収")
  }

  /** `"年収" in text or "年俸" in text`. */
  predicate AnnualMarked(s: String) {
    Contains(s, "年収") || Contains(s, "年俸")
  }

  /** The figures `SALARY_PATTERN.findall` returns: numbers followed by `円` or `万円`. */
  function SalaryFigures(s: String): (r: seq<String>)
    ensures forall i :: 0 <= i < |r| ==> IsNumeral(r[i])
    ensures r == [] <==> forall q :: 0 <= q < |s| ==> NumberAt(s, q, OptionalMan).None?
  {
    FindNumbersEmpty(s, 0, OptionalMan);
    FindNumbers(s, 0, OptionalMan)
  }

  /** A figure below 1000 is read as a number of 万円, anything else as yen. */
  function ToYen(v: nat): (yen: nat)
    ensures v < 1000 ==> yen == v * 10000
    ensures v >= 1000 ==> yen == v
    ensures yen >= v
  {
    if v < 1000 then v * 10000 else v
  }

  /**
   * The amounts in yen: each figure without its commas, times 10000 when below
   * 1000, and, for a text marked monthly but not annual, times 12 when below
   * 2,500,000.
   */
  function Amounts(s: String): (r: seq<int>)
    ensures |r| == |SalaryFigures(s)|
    ensures forall i :: 0 <= i < |r| ==>
              var yen := ToYen(NumeralValue(SalaryFigures(s)[i]));
              r[i] == (if MonthlyMarked(s) && !AnnualMarked(s) && yen < 2500000 then yen * 12 else yen)
  {
    var values := Values(SalaryFigures(s));
    var yen := seq(|values|, i requires 0 <= i < |values| => ToYen(values[i]));
    if MonthlyMarked(s) && !AnnualMarked(s) then Annualise(yen) else yen
  }

  /**
   * `_parse_salary`: None for a missing or empty text and for a text with no
   * figure; otherwise the least and the greatest amount.
   */
  function ParseSalary(text: Option<String>): (r: Option<(int, int)>)
    ensures text.None? || text.value == [] ==> r.None?
    ensures text.Some? && text.value != [] ==> (r.None? <==> SalaryFigures(text.value) == [])
    ensures r.Some? ==>
              var a := Amounts(text.value);
              && r.value.0 <= r.value.1
              && r.value.0 in a && r.value.1 in a
              && forall i :: 0 <= i < |a| ==> r.value.0 <= a[i] <= r.value.1
  {
    if text.None? || text.value == [] then None
    else
      var a := Amounts(text.value);
      if a == [] then None else Some(Range(a))
  }

  lemma MonthlyExampleTail()
    ensures FindNumbers("月給 30万円 ~ 43万円", 7, OptionalMan) == [['4', '3']]
  {
    var s := "月給 30万円 ~ 43万円";
    assert NumberAt(s, 10, OptionalMan) == Some(12) by {
      assert DigitRunEnd(s, 10) == 12;
      assert GroupChainEnd(s, 12) == 12;
    }
    assert s[10..12] == ['4', '3'];
    assert FindNumbers(s, 14, OptionalMan) == [];
  }

  lemma MonthlyExampleFirst()
    ensures var s := "月給 30万円 ~ 43万円";
            NumberAt(s, 3, OptionalMan) == Some(5) && UnitAt(s, 5, OptionalMan) == 2 && s[3..5] == ['3', '0']
  {
    var s := "月給 30万円 ~ 43万円";
    assert DigitRunEnd(s, 3) == 5;
    assert GroupChainEnd(s, 5) == 5;
    assert s[5..7] == "万円";
  }

  lemma MonthlyExampleHead()
    ensures FindNumbers("月給 30万円 ~ 43万円", 3, OptionalMan) == [['3', '0'], ['4', '3']]
  {
    MonthlyExampleFirst();
    MonthlyExampleTail();
  }

  lemma MonthlyExampleFigures()
    ensures SalaryFigures("月給 30万円 ~ 43万円") == [['3', '0'], ['4', '3']]
  {
    var s := "月給 30万円 ~ 43万円";
    assert !IsDigit(s[0]) && !IsDigit(s[1]) && !IsDigit(s[2]);
    assert FindNumbers(s, 0, OptionalMan) == FindNumbers(s, 3, OptionalMan);
    MonthlyExampleHead();
  }

  lemma MonthlyExampleMarkers()
    ensures MonthlyMarked("月給 30万円 ~ 43万円") && !AnnualMarked("月給 30万円 ~ 43万円")
  {
    var s := "月給 30万円 ~ 43万円";
    assert At(s, 0, "月給");
    NotContainsFirst(s, "年収");
    NotContainsFirst(s, "年俸");
  }

  lemma MonthlyExampleYen()
    ensures var f := SalaryFigures("月給 30万円 ~ 43万円");
            |f| == 2 && ToYen(NumeralValue(f[0])) == 300000 && ToYen(NumeralValue(f[1])) == 430000
  {
    MonthlyExampleFigures();
    TwoDigitValue('3', '0');
    TwoDigitValue('4', '3');
  }

  lemma MonthlyExampleAmounts()
    ensures Amounts("月給 30万円 ~ 43万円") == [3600000, 5160000]
  {
    var s := "月給 30万円 ~ 43万円";
    MonthlyExampleMarkers();
    MonthlyExampleYen();
    var r := Amounts(s);
    assert |r| == 2;
    assert r[0] == 3600000;
    assert r[1] == 5160000;
  }

  /** The docstring's example: a monthly range in 万円 becomes an annual range in yen. */
  lemma MonthlyExample()
    ensures ParseSalary(Some("月給 30万円 ~ 43万円")) == Some((3600000, 5160000))
  {
    MonthlyExampleAmounts();
  }

  lemma YenExampleDigits()
    ensures RemoveChars("380,000", {','}) == "380000"
  {
    var a, b := "380", "000";
    assert "380,000" == a + [','] + b;
    RemoveCharBetween(a, ',', b, {','});
    assert a + b == "380000";
  }

  lemma YenExampleDecimal()
    ensures AllDigits("380000") && DecimalValue("380000") == 380000
  {
    assert "3"[..0] == [];
    assert DecimalValue("3") == 3;
    DecimalSnoc("3", '8');
    assert "3" + ['8'] == "38";
    DecimalSnoc("38", '0');
    assert "38" + ['0'] == "380";
    DecimalSnoc("380", '0');
    assert "380" + ['0'] == "3800";
    DecimalSnoc("3800", '0');
    assert "3800" + ['0'] == "38000";
    DecimalSnoc("38000", '0');
    assert "38000" + ['0'] == "380000";
  }

  lemma YenExampleNumeral()
    ensures IsNumeral("380,000")
  {
    var g := "380,000";
    assert IsDigit(g[0]);
    assert forall i :: 0 <= i < |g| ==> IsDigit(g[i]) || g[i] == ',';
  }

  lemma YenExampleValue()
    ensures IsNumeral("380,000") && NumeralValue("380,000") == 380000
  {
    YenExampleNumeral();
    YenExampleDigits();
    NumeralValueOf("380,000", "380000");
    YenExampleDecimal();
  }

  lemma YenExampleFigures()
    ensures SalaryFigures("380,000円") == ["380,000"]
  {
    var s := "380,000円";
    assert NumberAt(s, 0, OptionalMan) == Some(7) by {
      assert DigitRunEnd(s, 0) == 3;
      assert GroupAt(s, 3);
      assert GroupChainEnd(s, 7) == 7;
      assert GroupChainEnd(s, 3) == 7;
      assert !At(s, 7, "万円");
      assert At(s, 7, "円");
    }
    assert s[0..7] == "380,000";
  }

  lemma YenExampleMarkers()
    ensures !MonthlyMarked("380,000円") && !AnnualMarked("380,000円")
  {
    var s := "380,000円";
    NotContainsFirst(s, "月給");
    NotContainsFirst(s, "月収");
    NotContainsFirst(s, "年収");
    NotContainsFirst(s, "年俸");
  }

  /** The pattern's comment example: a figure written in yen, with a comma, is kept as it is. */
  lemma YenExample()
    ensures ParseSalary(Some("380,000円")) == Some((380000, 380000))
  {
    YenExampleMarkers();
    YenExampleFigures();
    YenExampleValue();
  }

  /** End of the run of digits and commas that starts at `p`: `[\d,]+` taken greedily. */
  function NumeralRunEnd(s: String, p: nat): (e: nat)
    requires p <= |s|
    ensures p <= e <= |s|
    ensures forall i :: p <= i < e ==> IsDigit(s[i]) || s[i] == ','
    ensures e < |s| ==> !IsDigit(s[e]) && s[e] != ','
    decreases |s| - p
  {
    if p < |s| && (IsDigit(s[p]) || s[p] == ',') then NumeralRunEnd(s, p + 1) else p
  }

  /** `re.match(r"^[\d,]+万?円", t)`, as a scanner: the run of digits and commas, then the unit. */
  predicate LeadingAmount(t: String) {
    var e := NumeralRunEnd(t, 0);
    e > 0 && UnitAt(t, e, OptionalMan) > 0
  }

  /** The strings the pattern `^[\d,]+万?円` matches at their start, as the pattern reads. */
  predicate LeadingAmountSpec(t: String) {
    exists k :: 1 <= k <= |t| && (forall i :: 0 <= i < k ==> IsDigit(t[i]) || t[i] == ',')
                && (At(t, k, "万円") || At(t, k, "円"))
  }

  /** The scanner agrees with the pattern in both directions. */
  lemma LeadingAmountMatches(t: String)
    ensures LeadingAmount(t) <==> LeadingAmountSpec(t)
  {
    var e := NumeralRunEnd(t, 0);
    if LeadingAmount(t) {
      assert 1 <= e <= |t|;
    }
    if LeadingAmountSpec(t) {
      var k :| 1 <= k <= |t| && (forall i :: 0 <= i < k ==> IsDigit(t[i]) || t[i] == ',')
               && (At(t, k, "万円") || At(t, k, "円"));
      assert t[k] == t[k..k + 1][0];
      assert !IsDigit(t[k]) && t[k] != ',';
      if e < k {
        assert false;
      } else if e > k {
        assert false;
      }
    }
  }

  /** A div text `_extract_salary_text` accepts: under 100 characters, and starting with 月給, 年収 or 年俸 or with an amount. */
  predicate SalaryLike(t: String) {
    |t| < 100
    && (StartsWith(t, "月給") || StartsWith(t, "年収") || StartsWith(t, "年俸") || LeadingAmount(t))
  }

  /** `_extract_salary_text`: the first of the card's div texts, in document order, that looks like a salary. */
  function ExtractSalaryText(divs: seq<String>): (r: Option<String>)
    ensures r.Some? ==> SalaryLike(r.value)
    ensures r.Some? ==> exists k :: 0 <= k < |divs| && divs[k] == r.value
                                    && forall i :: 0 <= i < k ==> !SalaryLike(divs[i])
    ensures r.None? <==> forall i :: 0 <= i < |divs| ==> !SalaryLike(divs[i])
  {
    match FirstIndex(divs, SalaryLike)
    case None => None
    case Some(k) => Some(divs[k])
  }

  /** The `a.jcs-JobTitle` link of a card: its stripped text, its `data-jk` attribute, and its `href` ("" when absent). */
  datatype TitleLink = TitleLink(text: String, jobKey: Option<String>, href: String)

  /**
   * What `_parse_job` reads from a card: the title link, the company and
   * location texts, the stripped texts of its divs in document order, the
   * texts of the `div.job-snippet` and `table.jobCardShelfContainer`
   * elements when present, and the text of the whole card.
   */
  datatype Card = Card(
    titleLink: Option<TitleLink>,
    company: Option<String>,
    location: Option<String>,
    divs: seq<String>,
    snippet: Option<String>,
    shelf: Option<String>,
    text: String)

  /**
   * The description: the snippet's text when there is a snippet, otherwise
   * the shelf's; when that is empty, or neither element exists, the card's text.
   */
  function Description(c: Card): (d: String)
    ensures c.snippet.Some? && c.snippet.value != [] ==> d == c.snippet.value
    ensures c.snippet.None? && c.shelf.Some? && c.shelf.value != [] ==> d == c.shelf.value
    ensures c.snippet.Some? && c.snippet.value == [] ==> d == c.text
    ensures c.snippet.None? && (c.shelf.None? || c.shelf.value == []) ==> d == c.text
    ensures d == [] ==> c.text == []
  {
    var elem := if c.snippet.Some? then c.snippet else c.shelf;
    var d := elem.GetOr([]);
    if d == [] then c.text else d
  }

  /** The detail URL: an empty or absolute `href` is kept, any other goes through `urljoin(BASE_URL, href)`. */
  function DetailUrl(href: String, urljoin: (String, String) -> String): (url: String)
    ensures href == [] || StartsWith(href, "http") ==> url == href
    ensures href != [] && !StartsWith(href, "http") ==> url == urljoin(BaseUrl, href)
  {
    if href != [] && !StartsWith(href, "http") then urljoin(BaseUrl, href) else href
  }

  /** `_parse_job`: a card without a title link or with an empty `data-jk` is dropped. */
  function ParseJob(c: Card, urljoin: (String, String) -> String): (r: Option<Listing>)
    ensures r.None? <==> c.titleLink.None? || c.titleLink.value.jobKey.None? || c.titleLink.value.jobKey.value == []
    ensures r.Some? ==>
              var l := c.titleLink.value;
              && r.value.jobId == l.jobKey.value
              && r.value.title == Some(l.text)
              && r.value.url == DetailUrl(l.href, urljoin)
    ensures r.Some? ==> r.value.company == c.company && r.value.location == c.location && r.value.board == Board
    ensures r.Some? ==> r.value.salaryText == ExtractSalaryText(c.divs)
    ensures r.Some? ==> r.value.salaryMin == (if ParseSalary(ExtractSalaryText(c.divs)).Some?
                                              then Some(ParseSalary(ExtractSalaryText(c.divs)).value.0) else None)
    ensures r.Some? ==> r.value.salaryMax == (if ParseSalary(ExtractSalaryText(c.divs)).Some?
                                              then Some(ParseSalary(ExtractSalaryText(c.divs)).value.1) else None)
    ensures r.Some? ==> (r.value.salaryMin.Some? <==> r.value.salaryText.Some? && SalaryFigures(r.value.salaryText.value) != [])
    ensures r.Some? ==> (r.value.salaryMin.Some? <==> r.value.salaryMax.Some?)
    ensures r.Some? && r.value.salaryMin.Some? ==> r.value.salaryMin.value <= r.value.salaryMax.value
    ensures r.Some? ==> r.value.description == Description(c)
  {
    match c.titleLink
    case None => None
    case Some(link) =>
      if link.jobKey.None? || link.jobKey.value == [] then None
      else
        var salaryText := ExtractSalaryText(c.divs);
        assert salaryText.Some? ==> salaryText.value != [];
        var salary := ParseSalary(salaryText);
        Some(Listing(
          link.jobKey.value,
          Some(link.text),
          c.company,
          c.location,
          salaryText,
          if salary.Some? then Some(salary.value.0) else None,
          if salary.Some? then Some(salary.value.1) else None,
          DetailUrl(link.href, urljoin),
          Board,
          Description(c)))
  }

  /** A link inside `nav[aria-label='pagination']`: its `aria-label` and its `href` ("" when absent). */
  datatype NavLink = NavLink(ariaLabel: String, href: String)

  /** A pagination link the fallback follows: its label contains 次 and its `href` is not empty. */
  predicate NextLike(l: NavLink) {
    Contains(l.ariaLabel, "次") && l.href != []
  }

  /**
   * `_get_next_page_url`: the `href` of the `pagination-page-next` link when
   * it is there and not empty, otherwise that of the first pagination link
   * whose label contains 次 and whose `href` is not empty; made absolute.
   */
  function NextPageUrl(nextHref: Option<String>, nav: Option<seq<NavLink>>, urljoin: (String, String) -> String)
    : (r: Option<String>)
    ensures nextHref.Some? && nextHref.value != [] ==> r == Some(DetailUrl(nextHref.value, urljoin))
    ensures r.None? <==> (nextHref.None? || nextHref.value == [])
                         && (nav.None? || forall i :: 0 <= i < |nav.value| ==> !NextLike(nav.value[i]))
    ensures (nextHref.None? || nextHref.value == []) && r.Some? ==>
              exists k :: 0 <= k < |nav.value| && NextLike(nav.value[k])
                          && r.value == DetailUrl(nav.value[k].href, urljoin)
                          && forall i :: 0 <= i < k ==> !NextLike(nav.value[i])
  {
    if nextHref.Some? && nextHref.value != [] then Some(DetailUrl(nextHref.value, urljoin))
    else if nav.None? then None
    else
      match FirstIndex(nav.value, NextLike)
      case None => None
      case Some(k) => Some(DetailUrl(nav.value[k].href, urljoin))
  }

  /** `_parse_job` with the URL joiner fixed, as one function of a card. */
  function ParseWith(urljoin: (String, String) -> String): Card -> Option<Listing> {
    c => ParseJob(c, urljoin)
  }

  /** `_parse_page`: the cards that parse, in order, and the next page's URL. */
  function ParsePage(cards: seq<Card>, nextHref: Option<String>, nav: Option<seq<NavLink>>,
                     urljoin: (String, String) -> String): (p: Paging.Page<String, Listing>)
    ensures |p.jobs| <= |cards|
    ensures forall i :: 0 <= i < |cards| && ParseJob(cards[i], urljoin).Some? ==>
              ParseJob(cards[i], urljoin).value in p.jobs
    ensures forall i :: 0 <= i < |p.jobs| ==> p.jobs[i].board == Board && p.jobs[i].jobId != []
    ensures p.next == NextPageUrl(nextHref, nav, urljoin)
  {
    var jobs := Collect(cards, ParseWith(urljoin));
    assert forall i :: 0 <= i < |jobs| ==> jobs[i].board == Board && jobs[i].jobId != [] by {
      forall i | 0 <= i < |jobs| ensures jobs[i].board == Board && jobs[i].jobId != [] {
        var j :| 0 <= j < |cards| && ParseJob(cards[j], urljoin) == Some(jobs[i]);
      }
    }
    Paging.Page(jobs, NextPageUrl(nextHref, nav, urljoin))
  }

  /** Every job of a page is what some card of it parses to. */
  lemma ParsePageOnlyParsed(cards: seq<Card>, nextHref: Option<String>, nav: Option<seq<NavLink>>,
                            urljoin: (String, String) -> String)
    ensures var jobs := ParsePage(cards, nextHref, nav, urljoin).jobs;
            forall i :: 0 <= i < |jobs| ==> exists j :: 0 <= j < |cards| && ParseJob(cards[j], urljoin) == Some(jobs[i])
  {
    var jobs := ParsePage(cards, nextHref, nav, urljoin).jobs;
    assert jobs == Collect(cards, ParseWith(urljoin));
    forall i | 0 <= i < |jobs|
      ensures exists j :: 0 <= j < |cards| && ParseJob(cards[j], urljoin) == Some(jobs[i])
    {
      var j :| 0 <= j < |cards| && ParseWith(urljoin)(cards[j]) == Some(jobs[i]);
    }
  }

  /**
   * The jobs of a page are read card by card, in document order: those of the
   * first cards come before those of the rest, and a card contributes its job
   * exactly when it parses.
   */
  lemma ParsePageInOrder(first: seq<Card>, rest: seq<Card>, c: Card, nextHref: Option<String>,
                         nav: Option<seq<NavLink>>, urljoin: (String, String) -> String)
    ensures ParsePage(first + rest, nextHref, nav, urljoin).jobs
            == ParsePage(first, nextHref, nav, urljoin).jobs + ParsePage(rest, nextHref, nav, urljoin).jobs
    ensures ParsePage([c], nextHref, nav, urljoin).jobs
            == if ParseJob(c, urljoin).Some? then [ParseJob(c, urljoin).value] else []
  {
    CollectAppend(first, rest, ParseWith(urljoin));
    CollectOne(c, ParseWith(urljoin));
  }

  /** `_build_search_url`'s query: `q` is the keywords joined by spaces, and `l` the location when one is given. */
  function SearchParams(keywords: seq<String>, location: Option<String>): (params: seq<(String, String)>)
    ensures |params| >= 1 && params[0] == ("q", Join(keywords, " "))
    ensures |params| == 2 <==> location.Some? && location.value != []
    ensures |params| == 2 ==> params[1] == ("l", location.value)
    ensures |params| <= 2
  {
    [("q", Join(keywords, " "))] + (if location.Some? && location.value != [] then [("l", location.value)] else [])
  }

  /** `_build_search_url`, with the query encoding as a parameter. */
  function BuildSearchUrl(keywords: seq<String>, location: Option<String>,
                          urlencode: seq<(String, String)> -> String): (url: String)
    ensures StartsWith(url, SearchUrl + "?")
    ensures url[|SearchUrl| + 1..] == urlencode(SearchParams(keywords, location))
  {
    var url := SearchUrl + "?" + urlencode(SearchParams(keywords, location));
    assert url[..|SearchUrl| + 1] == SearchUrl + "?";
    url
  }

  /** `search`: the shared page loop, started at the search URL, over at most `max_pages` pages. */
  method Search(keywords: seq<String>, location: Option<String>, maxPages: int,
                urlencode: seq<(String, String)> -> String,
                pages: String -> Option<Paging.Page<String, Listing>>)
    returns (jobs: seq<Listing>, ghost visits: seq<Paging.Visit<String, Listing>>)
    ensures visits == Paging.Trace(Paging.ByPosition(pages), BuildSearchUrl(keywords, location, urlencode), 0,
                                   if maxPages < 0 then 0 else maxPages)
    ensures jobs == Paging.AllJobs(
              Paging.Trace(Paging.ByPosition(pages), BuildSearchUrl(keywords, location, urlencode), 0,
                           if maxPages < 0 then 0 else maxPages))
    ensures |visits| <= (if maxPages < 0 then 0 else maxPages)
  {
    jobs, visits := Paging.Search(Paging.ByPosition(pages), BuildSearchUrl(keywords, location, urlencode), maxPages);
  }
}
