/**
 * The Wantedly scraper (src/scrapers/wantedly.py): category URLs chosen from
 * the keywords, projects read from the page's Apollo state (a JSON object)
 * or, when there is none, from the page's project links, and a page loop
 * that keeps only the first job seen with each id.
 */
module Wantedly {
  import opened Wrappers
  import opened Text
  import opened Counting
  import opened Listing
  import PathIds

  const Board: String := "wantedly"
  const BaseUrl: String := "https://www.wantedly.com"
  const SearchUrl: String := "https://www.wantedly.com/projects"

  // ---------------------------------------------------------------------------
  // Search URL

  /** `occupation_map`: the keywords that select an occupation category, and its slug. */
  const Occupations: map<String, String> := map[
    "デザイナー" := "designer",
    "エンジニア" := "engineer",
    "マーケター" := "marketer",
    "セールス" := "sales",
    "PM" := "pm_director",
    "プロダクトマネージャー" := "pm_director",
    "ディレクター" := "pm_director",
    "人事" := "hr",
    "バックオフィス" := "corporate"]

  /** The slug of the first keyword that is in the map, or None when no keyword is. */
  function Occupation(keywords: seq<String>): (r: Option<String>)
    ensures r.Some? ==>
              exists k :: 0 <= k < |keywords| && keywords[k] in Occupations && r.value == Occupations[keywords[k]]
                          && forall i :: 0 <= i < k ==> keywords[i] !in Occupations
    ensures r.None? <==> forall i :: 0 <= i < |keywords| ==> keywords[i] !in Occupations
  {
    match FirstWhere(keywords, kw => kw in Occupations)
    case None => None
    case Some(kw) => Some(Occupations[kw])
  }

  /** The listing URL before any page parameter: the occupation's category, or all projects. */
  function CategoryUrl(occupation: Option<String>): (r: String)
    ensures StartsWith(r, SearchUrl)
    ensures Contains(r, "?") <==> occupation.Some?
  {
    match occupation
    case None =>
      NotContainsFirst(SearchUrl, "?");
      SearchUrl
    case Some(slug) =>
      var r := SearchUrl + "?occupation_types%5B%5D=" + slug;
      assert r[..|SearchUrl|] == SearchUrl;
      assert r[|SearchUrl|] == '?';
      assert r[|SearchUrl|..|SearchUrl| + 1] == "?";
      assert At(r, |SearchUrl|, "?");
      r
  }

  /** `page={n}`. */
  function PageParam(page: nat): String {
    "page=" + NatToString(page)
  }

  /**
   * `_build_search_url`: the category URL, with `page={page}` added after "&"
   * or "?" (whichever the URL needs) when `page` is over 1. The location is
   * accepted and not used.
   */
  function BuildSearchUrl(keywords: seq<String>, location: Option<String>, page: int): (r: String)
    ensures StartsWith(r, CategoryUrl(Occupation(keywords)))
    ensures page <= 1 ==> r == CategoryUrl(Occupation(keywords))
    ensures page > 1 ==>
              r == CategoryUrl(Occupation(keywords)) + (if Occupation(keywords).Some? then "&" else "?") + PageParam(page)
  {
    var base := CategoryUrl(Occupation(keywords));
    if page > 1 then
      var r := base + (if Contains(base, "?") then "&" else "?") + PageParam(page);
      assert r[..|base|] == base;
      r
    else base
  }

  /** Two strings that are the same text followed by different endings differ. */
  lemma AppendCancel(a: String, x: String, y: String)
    requires a + x == a + y
    ensures x == y
  {
    assert x == (a + x)[|a|..];
    assert y == (a + y)[|a|..];
  }

  /** Different page numbers give different `page=` parameters after the same URL. */
  lemma PagedUrlsDiffer(base: String, p: nat, q: nat)
    requires p != q
    ensures base + PageParam(p) != base + PageParam(q)
  {
    if base + PageParam(p) == base + PageParam(q) {
      AppendCancel(base, PageParam(p), PageParam(q));
      AppendCancel("page=", NatToString(p), NatToString(q));
    }
  }

  /** Two pages from 1 on never share a URL. */
  lemma SearchUrlPagesDiffer(keywords: seq<String>, location: Option<String>, p: int, q: int)
    requires 1 <= p && 1 <= q
    ensures BuildSearchUrl(keywords, location, p) == BuildSearchUrl(keywords, location, q) <==> p == q
  {
    if p != q {
      var base := CategoryUrl(Occupation(keywords));
      var sep: String := if Occupation(keywords).Some? then "&" else "?";
      if p > 1 && q > 1 {
        PagedUrlsDiffer(base + sep, p, q);
      } else {
        assert |BuildSearchUrl(keywords, location, p)| != |BuildSearchUrl(keywords, location, q)|;
      }
    }
  }

  // ---------------------------------------------------------------------------
  // Apollo state

  /** A JSON value as `json.loads` returns it; an object's fields are in document order with distinct keys. */
  datatype Json = Null | Bool(b: bool) | Num(n: int) | Str(s: String) | Arr(items: seq<Json>) | Obj(fields: seq<(String, Json)>)

  /** `d.get(key)` on a JSON object: the value stored under `key`. */
  function Get(fields: seq<(String, Json)>, key: String): (r: Option<Json>)
    ensures r.Some? ==> exists i :: 0 <= i < |fields| && fields[i] == (key, r.value)
    ensures r.None? <==> forall i :: 0 <= i < |fields| ==> fields[i].0 != key
  {
    if fields == [] then None
    else if fields[0].0 == key then Some(fields[0].1)
    else
      var r := Get(fields[1..], key);
      assert forall i :: 1 <= i < |fields| ==> fields[i] == fields[1..][i - 1];
      r
  }

  /** Python truthiness of a JSON value. */
  predicate Truthy(j: Json) {
    match j
    case Null => false
    case Bool(b) => b
    case Num(n) => n != 0
    case Str(s) => s != []
    case Arr(items) => items != []
    case Obj(fields) => fields != []
  }

  /** `str(j)` for a scalar JSON value; None for an array or object. */
  function ScalarText(j: Json): (r: Option<String>)
    ensures j.Str? ==> r == Some(j.s)
    ensures j.Num? ==> r == Some(IntToString(j.n))
    ensures j.Bool? ==> r == Some(if j.b then "True" else "False")
    ensures j.Null? ==> r == Some("None")
    ensures r.None? <==> j.Arr? || j.Obj?
  {
    match j
    case Null => Some("None")
    case Bool(b) => Some(if b then "True" else "False")
    case Num(n) => Some(IntToString(n))
    case Str(s) => Some(s)
    case Arr(_) => None
    case Obj(_) => None
  }

  /** `d.get(key, default)` read as text: the default when the key is missing, the string stored, or None for JSON null. */
  function TextField(fields: seq<(String, Json)>, key: String, default: String): (r: Option<String>)
    ensures Get(fields, key).None? ==> r == Some(default)
    ensures Get(fields, key) == Some(Null) ==> r.None?
    ensures r.Some? && Get(fields, key).Some? ==> Get(fields, key).value == Str(r.value)
    ensures Get(fields, key).Some? && Get(fields, key).value.Str? ==> r == Some(Get(fields, key).value.s)
  {
    match Get(fields, key)
    case None => Some(default)
    case Some(Str(s)) => Some(s)
    case Some(_) => None
  }

  /** The outcome of reading a project's company: `.get` on a non-object raises and drops the project. */
  datatype CompanyRead = Raised | Name(name: Option<String>)

  /** `Company:{id}` for a project whose `company` is a non-empty object with a truthy `id`. */
  function CompanyKey(project: seq<(String, Json)>): (r: Option<String>)
    ensures r.Some? ==> StartsWith(r.value, "Company:")
    ensures r.Some? <==>
              && Get(project, "company").Some? && Get(project, "company").value.Obj?
              && Get(project, "company").value.fields != []
              && Get(Get(project, "company").value.fields, "id").Some?
              && Truthy(Get(Get(project, "company").value.fields, "id").value)
              && ScalarText(Get(Get(project, "company").value.fields, "id").value).Some?
    ensures r.Some? ==>
              r.value == "Company:" + ScalarText(Get(Get(project, "company").value.fields, "id").value).value
  {
    match Get(project, "company")
    case Some(Obj(company)) =>
      if company == [] then None
      else
        (match Get(company, "id")
         case Some(id) =>
           if Truthy(id) && ScalarText(id).Some? then
             var r := "Company:" + ScalarText(id).value;
             assert r[..8] == "Company:";
             Some(r)
           else None
         case None => None)
    case _ => None
  }

  /**
   * `company_name`: "" without a company reference or without its entry in
   * the state, the entry's `name` (default "") when the entry is an object,
   * and an exception when it is not.
   */
  function CompanyOf(state: seq<(String, Json)>, project: seq<(String, Json)>): (r: CompanyRead)
    ensures CompanyKey(project).None? ==> r == Name(Some(""))
    ensures CompanyKey(project).Some? && Get(state, CompanyKey(project).value).None? ==> r == Name(Some(""))
    ensures r.Raised? <==>
              CompanyKey(project).Some? && Get(state, CompanyKey(project).value).Some?
              && !Get(state, CompanyKey(project).value).value.Obj?
    ensures r.Name? && CompanyKey(project).Some? && Get(state, CompanyKey(project).value).Some? ==>
              r.name == TextField(Get(state, CompanyKey(project).value).value.fields, "name", "")
  {
    match CompanyKey(project)
    case None => Name(Some(""))
    case Some(key) =>
      match Get(state, key)
      case None => Name(Some(""))
      case Some(Obj(entry)) => Name(TextField(entry, "name", ""))
      case Some(_) => Raised
  }

  /**
   * `value.get("excerpt", "") or value.get("description", "")`, as text: a
   * truthy string excerpt, otherwise the description when it is a string,
   * otherwise "".
   */
  function DescriptionOf(project: seq<(String, Json)>): (r: String)
    ensures Get(project, "excerpt").Some? && Truthy(Get(project, "excerpt").value) && r != [] ==>
              Get(project, "excerpt").value == Str(r)
    ensures (Get(project, "excerpt").None? || !Truthy(Get(project, "excerpt").value)) && r != [] ==>
              Get(project, "description") == Some(Str(r))
    ensures Get(project, "excerpt").Some? && Truthy(Get(project, "excerpt").value) ==>
              r == if Get(project, "excerpt").value.Str? then Get(project, "excerpt").value.s else []
    ensures Get(project, "excerpt").None? || !Truthy(Get(project, "excerpt").value) ==>
              r == if Get(project, "description").Some? && Get(project, "description").value.Str?
                   then Get(project, "description").value.s else []
  {
    var excerpt := Get(project, "excerpt").GetOr(Str(""));
    var chosen := if Truthy(excerpt) then excerpt else Get(project, "description").GetOr(Str(""));
    if chosen.Str? then chosen.s else ""
  }

  /** A "Project:" key whose value is an object with a truthy `id`. */
  predicate IsProjectEntry(key: String, value: Json) {
    StartsWith(key, "Project:") && value.Obj? && Get(value.fields, "id").Some? && Truthy(Get(value.fields, "id").value)
  }

  /** The job one entry of the Apollo state yields, or None when it is skipped. */
  function ParseProject(state: seq<(String, Json)>, key: String, value: Json): (r: Option<Listing>)
    ensures !IsProjectEntry(key, value) ==> r.None?
    ensures IsProjectEntry(key, value) ==>
              (r.Some? <==> ScalarText(Get(value.fields, "id").value).Some? && !CompanyOf(state, value.fields).Raised?)
    ensures r.Some? ==> Some(r.value.jobId) == ScalarText(Get(value.fields, "id").value)
    ensures r.Some? ==> r.value.url == BaseUrl + "/projects/" + r.value.jobId && r.value.board == Board
    ensures r.Some? ==> r.value.salaryText.None? && r.value.salaryMin.None? && r.value.salaryMax.None?
    ensures r.Some? ==> r.value.company == CompanyOf(state, value.fields).name
    ensures r.Some? ==> r.value.title == TextField(value.fields, "title", "")
                        && r.value.location == TextField(value.fields, "locationName", "")
  {
    if !IsProjectEntry(key, value) then None
    else
      match ScalarText(Get(value.fields, "id").value)
      case None => None
      case Some(id) =>
        match CompanyOf(state, value.fields)
        case Raised => None
        case Name(company) =>
          Some(Listing(id, TextField(value.fields, "title", ""), company,
                       TextField(value.fields, "locationName", ""), None, None, None,
                       BaseUrl + "/projects/" + id, Board, DescriptionOf(value.fields)))
  }

  /** The parse of every entry of the state, as one function of an entry. */
  function EntryParser(state: seq<(String, Json)>): ((String, Json)) -> Option<Listing> {
    (entry: (String, Json)) => ParseProject(state, entry.0, entry.1)
  }

  /** What `_parse_apollo_projects` returns: one job per accepted entry, in the state's order. */
  function ApolloJobs(state: seq<(String, Json)>): seq<Listing> {
    Collect(state, EntryParser(state))
  }

  /** `_parse_apollo_projects`: a pass over the state's entries, appending each accepted project's job. */
  method ParseApolloProjects(state: seq<(String, Json)>) returns (jobs: seq<Listing>)
    ensures jobs == ApolloJobs(state)
  {
    jobs := [];
    var i := 0;
    while i < |state|
      invariant 0 <= i <= |state|
      invariant jobs == Collect(state[..i], EntryParser(state))
    {
      assert state[..i + 1][..i] == state[..i];
      var (key, value) := state[i];
      var job := ParseProject(state, key, value);
      if job.Some? {
        jobs := jobs + [job.value];
      }
      i := i + 1;
    }
    assert state[..i] == state;
  }

  /**
   * Every job from the Apollo state is a project's: its URL is the project
   * page for its id, it has no salary, and it belongs to this board; and
   * every project entry whose id and company can be read gives a job.
   */
  lemma ApolloJobsAreProjects(state: seq<(String, Json)>)
    ensures forall j :: j in ApolloJobs(state) ==>
              j.url == BaseUrl + "/projects/" + j.jobId && j.board == Board
              && j.salaryText.None? && j.salaryMin.None? && j.salaryMax.None?
    ensures forall k :: 0 <= k < |state| && IsProjectEntry(state[k].0, state[k].1)
                        && ScalarText(Get(state[k].1.fields, "id").value).Some?
                        && !CompanyOf(state, state[k].1.fields).Raised? ==>
              ParseProject(state, state[k].0, state[k].1).value in ApolloJobs(state)
  {
    var jobs := ApolloJobs(state);
    forall j | j in jobs
      ensures j.url == BaseUrl + "/projects/" + j.jobId && j.board == Board
              && j.salaryText.None? && j.salaryMin.None? && j.salaryMax.None?
    {
      var i :| 0 <= i < |jobs| && jobs[i] == j;
      var k :| 0 <= k < |state| && EntryParser(state)(state[k]) == Some(j);
    }
    forall k | 0 <= k < |state| && IsProjectEntry(state[k].0, state[k].1)
               && ScalarText(Get(state[k].1.fields, "id").value).Some?
               && !CompanyOf(state, state[k].1.fields).Raised?
      ensures ParseProject(state, state[k].0, state[k].1).value in jobs
    {
      assert EntryParser(state)(state[k]).Some?;
    }
  }

  // ---------------------------------------------------------------------------
  // Project links: the HTML fallback

  /** A project link: its `href`, its text, and the company text found near it ("" when none). */
  datatype Link = Link(href: String, text: String, company: String)

  const ProjectPath: String := "/projects/"

  /** `re.search(r'/projects/(\d+)', href).group(1)`, or None. */
  function LinkId(l: Link): Option<String> {
    PathIds.FindId(l.href, ProjectPath)
  }

  /** The ids of some jobs. */
  function Ids(jobs: seq<Listing>): set<String> {
    set i | 0 <= i < |jobs| :: jobs[i].jobId
  }

  /** The ids after one more job. */
  lemma IdsSnoc(jobs: seq<Listing>, x: Listing)
    ensures Ids(jobs + [x]) == Ids(jobs) + {x.jobId}
    ensures DistinctIds(jobs) && x.jobId !in Ids(jobs) ==> DistinctIds(jobs + [x])
  {
    var r := jobs + [x];
    forall id | id in Ids(r) ensures id in Ids(jobs) + {x.jobId} {
      var i :| 0 <= i < |r| && r[i].jobId == id;
      if i < |jobs| {
        assert r[i] == jobs[i];
      }
    }
    forall id | id in Ids(jobs) ensures id in Ids(r) {
      var i :| 0 <= i < |jobs| && jobs[i].jobId == id;
      assert r[i] == jobs[i];
    }
    assert r[|jobs|] == x;
  }

  /** The ids of two runs of jobs together. */
  lemma IdsAppend(a: seq<Listing>, b: seq<Listing>)
    ensures Ids(a + b) == Ids(a) + Ids(b)
  {
    var r := a + b;
    forall id | id in Ids(r) ensures id in Ids(a) + Ids(b) {
      var i :| 0 <= i < |r| && r[i].jobId == id;
      if i < |a| {
        assert r[i] == a[i];
      } else {
        assert r[i] == b[i - |a|];
      }
    }
    forall id | id in Ids(a) + Ids(b) ensures id in Ids(r) {
      if id in Ids(a) {
        var i :| 0 <= i < |a| && a[i].jobId == id;
        assert r[i] == a[i];
      } else {
        var i :| 0 <= i < |b| && b[i].jobId == id;
        assert r[|a| + i] == b[i];
      }
    }
  }

  /** No two jobs share an id. */
  predicate DistinctIds(jobs: seq<Listing>) {
    forall i, j :: 0 <= i < j < |jobs| ==> jobs[i].jobId != jobs[j].jobId
  }

  /** Jobs with distinct ids have as many ids as jobs. */
  lemma {:induction false} DistinctIdsCount(s: seq<Listing>)
    requires DistinctIds(s)
    ensures |Ids(s)| == |s|
    decreases |s|
  {
    if s == [] {
      assert Ids(s) == {};
    } else {
      var init := s[..|s| - 1];
      assert init + [s[|s| - 1]] == s;
      DistinctIdsCount(init);
      assert s[|s| - 1].jobId !in Ids(init);
      IdsSnoc(init, s[|s| - 1]);
    }
  }

  /** The ids of some links that have one. */
  function LinkIds(links: seq<Link>): set<String> {
    set k | 0 <= k < |links| && LinkId(links[k]).Some? :: LinkId(links[k]).value
  }

  /** The job a link gives, with the title and URL its scraper chose. */
  function LinkJob(id: String, l: Link, title: String, url: String): Listing {
    Listing(id, Some(title), Some(l.company), Some(""), None, None, None, url, Board, "")
  }

  /**
   * The pass over the links shared by `_parse_html_fallback` and the browser
   * scraper's `_parse_job_cards`: a link without a project id is passed
   * over; the first link with an id marks it as seen, and gives a job only
   * when `title` accepts it; later links with the same id are passed over.
   * Returns the jobs and the ids seen.
   */
  function ScanLinks(links: seq<Link>, title: Link -> Option<String>, url: (String, Link) -> String)
    : (r: (seq<Listing>, set<String>))
    ensures DistinctIds(r.0) && Ids(r.0) <= r.1
    ensures forall j :: j in r.0 ==> j.board == Board && j.salaryMin.None? && j.salaryMax.None?
    decreases |links|
  {
    if links == [] then ([], {})
    else
      var (jobs, seen) := ScanLinks(links[..|links| - 1], title, url);
      var l := links[|links| - 1];
      match LinkId(l)
      case None => (jobs, seen)
      case Some(id) =>
        if id in seen then (jobs, seen)
        else
          match title(l)
          case None => (jobs, seen + {id})
          case Some(t) =>
            IdsSnoc(jobs, LinkJob(id, l, t, url(id, l)));
            (jobs + [LinkJob(id, l, t, url(id, l))], seen + {id})
  }

  /** The scan of one more link: the first link with a new id is kept when `title` accepts it. */
  lemma ScanLinksStep(links: seq<Link>, i: nat, title: Link -> Option<String>, url: (String, Link) -> String)
    requires i < |links|
    ensures var before := ScanLinks(links[..i], title, url);
            var l := links[i];
            ScanLinks(links[..i + 1], title, url) ==
              if LinkId(l).None? || LinkId(l).value in before.1 then before
              else if title(l).None? then (before.0, before.1 + {LinkId(l).value})
              else (before.0 + [LinkJob(LinkId(l).value, l, title(l).value, url(LinkId(l).value, l))],
                    before.1 + {LinkId(l).value})
  {
    assert links[..i + 1][..i] == links[..i];
  }

  /** One more link adds its id to the ids of the jobs exactly when it is the first with that id and its title is accepted. */
  lemma ScanLinksSnoc(links: seq<Link>, title: Link -> Option<String>, url: (String, Link) -> String)
    requires links != []
    ensures var init := links[..|links| - 1];
            var l := links[|links| - 1];
            var before := ScanLinks(init, title, url);
            Ids(ScanLinks(links, title, url).0) ==
              Ids(before.0) + (if LinkId(l).Some? && LinkId(l).value !in before.1 && title(l).Some?
                               then {LinkId(l).value} else {})
  {
    var init := links[..|links| - 1];
    var l := links[|links| - 1];
    var (jobs, seen) := ScanLinks(init, title, url);
    if LinkId(l).Some? && LinkId(l).value !in seen && title(l).Some? {
      IdsSnoc(jobs, LinkJob(LinkId(l).value, l, title(l).value, url(LinkId(l).value, l)));
    }
  }

  /** The ids of the links after one more link. */
  lemma LinkIdsSnoc(links: seq<Link>)
    requires links != []
    ensures var l := links[|links| - 1];
            LinkIds(links) == LinkIds(links[..|links| - 1]) + (if LinkId(l).Some? then {LinkId(l).value} else {})
  {
    var init := links[..|links| - 1];
    assert forall k :: 0 <= k < |init| ==> links[k] == init[k];
  }

  /** The ids marked as seen are exactly the ids of the links. */
  lemma {:induction false} ScanSeesAllIds(links: seq<Link>, title: Link -> Option<String>, url: (String, Link) -> String)
    ensures ScanLinks(links, title, url).1 == LinkIds(links)
    decreases |links|
  {
    if links != [] {
      ScanSeesAllIds(links[..|links| - 1], title, url);
      LinkIdsSnoc(links);
    }
  }

  /** The position of the first link carrying `id`, if any. */
  function FirstLinkAt(links: seq<Link>, id: String): (r: Option<nat>)
    ensures r.Some? ==> r.value < |links| && LinkId(links[r.value]) == Some(id)
    ensures r.Some? ==> forall i :: 0 <= i < r.value ==> LinkId(links[i]) != Some(id)
    ensures r.None? <==> id !in LinkIds(links)
    decreases |links|
  {
    if links == [] then None
    else
      var init := links[..|links| - 1];
      LinkIdsSnoc(links);
      assert forall i :: 0 <= i < |init| ==> links[i] == init[i];
      match FirstLinkAt(init, id)
      case Some(k) => Some(k)
      case None =>
        if LinkId(links[|links| - 1]) == Some(id) then Some(|links| - 1) else None
  }

  /** The first link carrying `id` exists and its title is accepted. */
  predicate FirstLinkKept(links: seq<Link>, title: Link -> Option<String>, id: String) {
    var k := FirstLinkAt(links, id);
    k.Some? && title(links[k.value]).Some?
  }

  /**
   * An id gives a job exactly when its first link is accepted: a rejected
   * first link uses the id up, whatever later links with it say.
   */
  lemma {:induction false} ScanKeepsFirstLinks(links: seq<Link>, title: Link -> Option<String>,
                                                url: (String, Link) -> String, id: String)
    ensures id in Ids(ScanLinks(links, title, url).0) <==> FirstLinkKept(links, title, id)
    decreases |links|
  {
    if links != [] {
      var init := links[..|links| - 1];
      ScanKeepsFirstLinks(init, title, url, id);
      ScanSeesAllIds(init, title, url);
      ScanLinksSnoc(links, title, url);
      var k := FirstLinkAt(init, id);
      if k.Some? {
        assert links[k.value] == init[k.value];
      }
    }
  }

  /** `link.get_text(strip=True)` kept when it has at least five characters, cut to 200. */
  function FallbackTitle(l: Link): (r: Option<String>)
    ensures r.Some? <==> |l.text| >= 5
    ensures r.Some? ==> StartsWith(l.text, r.value) && |r.value| == if |l.text| < 200 then |l.text| else 200
  {
    if |l.text| < 5 then None else Some(Truncate(l.text, 200))
  }

  /** `urljoin(BASE_URL, href.split("?")[0])`: the link without its query string, made absolute. */
  function FallbackUrl(urljoin: (String, String) -> String): (String, Link) -> String {
    (id: String, l: Link) => urljoin(BaseUrl, Split(l.href, '?')[0])
  }

  /** The part of a URL before its first "?" holds no "?" and is where the URL starts. */
  lemma QueryDropped(href: String)
    ensures '?' !in Split(href, '?')[0]
    ensures StartsWith(href, Split(href, '?')[0])
  {
    var pieces := Split(href, '?');
    if |pieces| > 1 {
      assert pieces == [pieces[0]] + pieces[1..];
      assert href == pieces[0] + "?" + Join(pieces[1..], "?");
    }
    assert href[..|pieces[0]|] == pieces[0];
  }

  /** `_parse_html_fallback`: the links in order, with the set of ids already seen. */
  method ParseHtmlFallback(links: seq<Link>, urljoin: (String, String) -> String) returns (jobs: seq<Listing>)
    ensures jobs == ScanLinks(links, FallbackTitle, FallbackUrl(urljoin)).0
  {
    jobs := CollectLinks(links, FallbackTitle, FallbackUrl(urljoin));
  }

  /**
   * The loop over the links of a page that both HTML parsers run: the set of
   * ids seen so far, and a job for the first link with each id whose title
   * `title` accepts, at the URL `url` makes of it.
   */
  method CollectLinks(links: seq<Link>, title: Link -> Option<String>, url: (String, Link) -> String)
    returns (jobs: seq<Listing>)
    ensures jobs == ScanLinks(links, title, url).0
  {
    jobs := [];
    var seen: set<String> := {};
    var i := 0;
    while i < |links|
      invariant 0 <= i <= |links|
      invariant (jobs, seen) == ScanLinks(links[..i], title, url)
    {
      ScanLinksStep(links, i, title, url);
      var l := links[i];
      var id := LinkId(l);
      if id.Some? && id.value !in seen {
        seen := seen + {id.value};
        var t := title(l);
        if t.Some? {
          jobs := jobs + [LinkJob(id.value, l, t.value, url(id.value, l))];
        }
      }
      i := i + 1;
    }
    assert links[..i] == links;
  }

  // ---------------------------------------------------------------------------
  // Deduplication across pages

  /** The jobs with every job whose id came earlier dropped: the first job with each id, in order. */
  function Dedup(s: seq<Listing>): (r: seq<Listing>)
    ensures DistinctIds(r)
    ensures Ids(r) == Ids(s)
    ensures |r| <= |s|
    ensures forall j :: j in r ==> j in s
    decreases |s|
  {
    if s == [] then []
    else
      var init := s[..|s| - 1];
      var rest := Dedup(init);
      var x := s[|s| - 1];
      assert Ids(s) == Ids(init) + {x.jobId} by {
        assert forall i :: 0 <= i < |init| ==> s[i] == init[i];
      }
      if x.jobId in Ids(rest) then rest
      else
        IdsSnoc(rest, x);
        rest + [x]
  }

  /** One more job is kept exactly when its id is new. */
  lemma DedupSnoc(s: seq<Listing>, x: Listing)
    ensures Dedup(s + [x]) == if x.jobId in Ids(Dedup(s)) then Dedup(s) else Dedup(s) + [x]
  {
    assert (s + [x])[..|s|] == s;
  }

  /** Jobs that already have distinct ids are left as they are. */
  lemma {:induction false} DedupDistinct(s: seq<Listing>)
    requires DistinctIds(s)
    ensures Dedup(s) == s
    decreases |s|
  {
    if s != [] {
      var init := s[..|s| - 1];
      DedupDistinct(init);
      assert s[|s| - 1].jobId !in Ids(init);
      assert init + [s[|s| - 1]] == s;
    }
  }

  /** Deduplicating more jobs only adds to the end of what was kept. */
  lemma {:induction false} DedupExtends(s: seq<Listing>, t: seq<Listing>)
    ensures |Dedup(s)| <= |Dedup(s + t)| && Dedup(s + t)[..|Dedup(s)|] == Dedup(s)
    decreases |t|
  {
    if t == [] {
      assert s + t == s;
    } else {
      var t' := t[..|t| - 1];
      assert (s + t)[..|s + t| - 1] == s + t';
      DedupExtends(s, t');
    }
  }

  // ---------------------------------------------------------------------------
  // The page loop

  /**
   * A fetched page: its Apollo state (empty when the page has none or it is
   * not valid JSON), its project links, the `href` of each of its links and
   * the text of each link that holds only text.
   */
  datatype Document = Document(apollo: seq<(String, Json)>, links: seq<Link>, hrefs: seq<String>, linkTexts: seq<String>)

  /** `_has_next_page`: a link to `page={current + 1}`, or a link whose text has "次" or, in any case, "Next". */
  predicate HasNextPage(d: Document, current: nat) {
    (exists i :: 0 <= i < |d.hrefs| && Contains(d.hrefs[i], PageParam(current + 1)))
    || (exists i :: 0 <= i < |d.linkTexts| && (Contains(d.linkTexts[i], "次") || Contains(Lower(d.linkTexts[i]), "next")))
  }

  /** A link whose text holds "次", or "next" in any mix of upper and lower case, means there is a next page. */
  lemma NextTextInAnyCase(d: Document, current: nat, i: nat, k: nat, word: String)
    requires i < |d.linkTexts| && At(d.linkTexts[i], k, word)
    requires word == "次" || Lower(word) == "next"
    ensures HasNextPage(d, current)
  {
    var t := d.linkTexts[i];
    if word == "次" {
      AtContains(t, k, word);
    } else {
      assert Lower(t)[k..k + |word|] == Lower(word) by {
        assert forall q :: 0 <= q < |word| ==> Lower(t)[k + q] == LowerChar(t[k + q]) && t[k + q] == word[q];
      }
      AtContains(Lower(t), k, "next");
    }
  }

  /** The jobs of one page: from the Apollo state when there is one, otherwise from the links. */
  function PageJobs(d: Document, urljoin: (String, String) -> String): seq<Listing> {
    if d.apollo != [] then ApolloJobs(d.apollo) else ScanLinks(d.links, FallbackTitle, FallbackUrl(urljoin)).0
  }

  /** `_parse_page` as a function of the document. */
  function PageParser(urljoin: (String, String) -> String): Document -> seq<Listing> {
    d => PageJobs(d, urljoin)
  }

  /** Page `n` of the search: the document fetched from its URL, or None when the fetch fails. */
  function PageLoader(keywords: seq<String>, location: Option<String>, fetch: String -> Option<Document>)
    : nat -> Option<Document>
  {
    (n: nat) => fetch(BuildSearchUrl(keywords, location, n))
  }

  /**
   * The jobs of the pages `search` parses from page `page` on, after the
   * jobs `acc` of the pages before, duplicates and all: it stops after a
   * failed fetch, after page `max_pages`, and after a page that shows no
   * link to the next one (unless it is the last page anyway).
   */
  function Rounds(load: nat -> Option<Document>, parse: Document -> seq<Listing>,
                  page: nat, maxPages: nat, acc: seq<Listing>): seq<Listing>
    decreases maxPages + 1 - page
  {
    if page > maxPages then acc
    else
      match load(page)
      case None => acc
      case Some(d) =>
        if page < maxPages && !HasNextPage(d, page) then acc + parse(d)
        else Rounds(load, parse, page + 1, maxPages, acc + parse(d))
  }

  /** Every job the search finds comes from a page it loaded, at most `maxPages`. */
  lemma {:induction false} RoundsFromPages(load: nat -> Option<Document>, parse: Document -> seq<Listing>,
                                            page: nat, maxPages: nat, acc: seq<Listing>, j: Listing)
    requires j in Rounds(load, parse, page, maxPages, acc)
    ensures j in acc || exists p :: page <= p <= maxPages && load(p).Some? && j in parse(load(p).value)
    decreases maxPages + 1 - page
  {
    if page <= maxPages && load(page).Some? {
      var d := load(page).value;
      if !(page < maxPages && !HasNextPage(d, page)) {
        RoundsFromPages(load, parse, page + 1, maxPages, acc + parse(d), j);
      }
    }
  }

  /**
   * The deduplicating loop of `search`: `new_jobs`, the page's jobs whose ids
   * were not seen yet, in order, with the set of seen ids updated.
   */
  method AddNew(ghost before: seq<Listing>, jobs: seq<Listing>, seen: set<String>, page: seq<Listing>)
    returns (added: seq<Listing>, seen': set<String>)
    requires jobs == Dedup(before) && seen == Ids(jobs)
    ensures jobs + added == Dedup(before + page) && seen' == Ids(jobs + added)
  {
    added, seen' := [], seen;
    var k := 0;
    assert before + page[..0] == before;
    while k < |page|
      invariant 0 <= k <= |page|
      invariant jobs + added == Dedup(before + page[..k])
      invariant seen' == Ids(jobs + added)
    {
      ghost var kept := jobs + added;
      DedupPrefixStep(before, page, k);
      if page[k].jobId !in seen' {
        IdsSnoc(kept, page[k]);
        seen' := seen' + {page[k].jobId};
        added := added + [page[k]];
        assert jobs + added == kept + [page[k]];
      }
      k := k + 1;
    }
    assert page[..k] == page;
  }

  /** One more job of a page is kept exactly when its id is new. */
  lemma DedupPrefixStep(before: seq<Listing>, page: seq<Listing>, k: nat)
    requires k < |page|
    ensures var kept := Dedup(before + page[..k]);
            Dedup(before + page[..k + 1]) == if page[k].jobId in Ids(kept) then kept else kept + [page[k]]
  {
    assert before + page[..k + 1] == (before + page[..k]) + [page[k]];
    DedupSnoc(before + page[..k], page[k]);
  }

  /** One page's jobs: from its Apollo state when it has one, otherwise from its links. */
  method ParsePage(d: Document, urljoin: (String, String) -> String) returns (jobs: seq<Listing>)
    ensures jobs == PageJobs(d, urljoin)
  {
    if d.apollo != [] {
      jobs := ParseApolloProjects(d.apollo);
    } else {
      jobs := ParseHtmlFallback(d.links, urljoin);
    }
  }

  /**
   * The loop of `search` over pages 1 to `max_pages`, for any way of loading
   * a page and parsing it: it keeps the jobs whose ids were not seen before.
   */
  method Crawl(load: nat -> Option<Document>, parse: Document -> seq<Listing>, max: nat)
    returns (jobs: seq<Listing>)
    ensures jobs == Dedup(Rounds(load, parse, 1, max, []))
    ensures DistinctIds(jobs)
  {
    jobs := [];
    var seen: set<String> := {};
    ghost var stream: seq<Listing> := [];
    var page: nat := 1;
    var stopped := false;
    while page <= max && !stopped
      invariant 1 <= page
      invariant !stopped ==> Rounds(load, parse, 1, max, []) == Rounds(load, parse, page, max, stream)
      invariant stopped ==> Rounds(load, parse, 1, max, []) == stream
      invariant jobs == Dedup(stream) && seen == Ids(jobs)
      decreases max + 1 - page, if stopped then 0 else 1
    {
      var doc := load(page);
      if doc.None? {
        stopped := true;
      } else {
        var d := doc.value;
        var pageJobs := parse(d);
        var added;
        added, seen := AddNew(stream, jobs, seen, pageJobs);
        jobs := jobs + added;
        stream := stream + pageJobs;
        if page < max && !HasNextPage(d, page) {
          stopped := true;
        } else {
          page := page + 1;
        }
      }
    }
  }

  /**
   * `search`: pages 1 to `max_pages` in order, each parsed from its Apollo
   * state or its links, keeping the jobs whose ids were not seen before.
   */
  method Search(keywords: seq<String>, location: Option<String>, maxPages: int,
                fetch: String -> Option<Document>, urljoin: (String, String) -> String)
    returns (jobs: seq<Listing>)
    ensures jobs == Dedup(Rounds(PageLoader(keywords, location, fetch), PageParser(urljoin), 1, if maxPages < 1 then 0 else maxPages, []))
    ensures DistinctIds(jobs)
  {
    jobs := Crawl(PageLoader(keywords, location, fetch), PageParser(urljoin), if maxPages < 1 then 0 else maxPages);
  }
}
