/**
 * The match scorer (src/matching/matcher.py): keyword, location and salary
 * matching, the 40/30/15/15 score of one job against a user's criteria, and
 * the pass that scores every job for one user and saves the matches that
 * reach the threshold.
 *
 * Scores are integers: `match_score` is stored as score/100 by matcher.py,
 * here the integer score itself is stored. A bound Python compares with
 * `float('inf')` is an absent bound.
 */
module Matcher {
  import opened Wrappers
  import opened Text
  import opened Counting
  import opened JobUtils

  const WeightTitle: int := 40
  const WeightDescription: int := 30
  const WeightLocation: int := 15
  const WeightSalary: int := 15

  // ---------------------------------------------------------------------------
  // Text matching
  // ---------------------------------------------------------------------------

  /** `_normalize_text`: lower-cased, stripped, every whitespace run made one space; "" for None or "". */
  function NormalizeForMatch(text: Option<String>): (r: String)
    ensures text.None? || text.value == [] ==> r == []
    ensures text.Some? ==> |r| <= |text.value|
    ensures IsLowerCase(r) && IsStripped(r)
  {
    if text.None? || text.value == [] then []
    else
      var t := Strip(Lower(text.value));
      CollapseIsSingleSpaced(t);
      CollapseLast(t);
      CollapseSpaces(t)
  }

  /** The normal form has no run of spaces, and every whitespace character in it is a plain space. */
  lemma NormalizeForMatchShape(text: Option<String>)
    ensures IsSingleSpaced(NormalizeForMatch(text))
  {
    if text.Some? && text.value != [] {
      CollapseIsSingleSpaced(Strip(Lower(text.value)));
    }
  }

  /** A lower-case, single-spaced text between runs of whitespace is its own normal form. */
  lemma NormalizeForMatchPadded(before: String, t: String, after: String)
    requires forall i :: 0 <= i < |before| ==> IsSpace(before[i])
    requires forall i :: 0 <= i < |after| ==> IsSpace(after[i])
    requires IsStripped(t) && IsSingleSpaced(t) && IsLowerCase(t)
    ensures NormalizeForMatch(Some(before + t + after)) == t
  {
    var s := before + t + after;
    if s != [] {
      assert Lower(s) == s;
      StripPadded(before, t, after);
      CollapseSingleSpaced(t);
    }
  }

  /**
   * Letter case is ignored, and the whitespace between two words, however
   * long and of whatever kind, becomes one space.
   */
  lemma NormalizeForMatchWords(w1: String, gap: String, w2: String)
    requires w1 != [] && w2 != [] && gap != []
    requires forall i :: 0 <= i < |w1| ==> !IsSpace(w1[i])
    requires forall i :: 0 <= i < |w2| ==> !IsSpace(w2[i])
    requires forall i :: 0 <= i < |gap| ==> IsSpace(gap[i])
    ensures NormalizeForMatch(Some(w1 + gap + w2)) == Lower(w1) + " " + Lower(w2)
  {
    CollapseLowerWords(w1, gap, w2);
  }

  /** A keyword hits a text: the text is non-empty, and the keyword's normal form is non-empty and occurs in the text's. */
  predicate Hits(text: Option<String>, keyword: String) {
    var k := NormalizeForMatch(Some(keyword));
    text.Some? && text.value != [] && k != [] && Contains(NormalizeForMatch(text), k)
  }

  function HitIn(text: Option<String>): String -> bool {
    k => Hits(text, k)
  }

  /** `_keyword_matches`: the keywords that hit the text, in the order given, repeats kept. */
  function KeywordMatches(text: Option<String>, keywords: seq<String>): (r: seq<String>)
    ensures |r| == CountWhere(keywords, HitIn(text)) <= |keywords|
    ensures text.None? || text.value == [] || keywords == [] ==> r == []
    ensures forall i :: 0 <= i < |r| ==> r[i] in keywords && Hits(text, r[i])
    ensures forall i :: 0 <= i < |keywords| && Hits(text, keywords[i]) ==> keywords[i] in r
  {
    Filter(keywords, HitIn(text))
  }

  /**
   * The hits keep the order of the keywords: those among the first keywords
   * come before those among the rest, and one keyword is kept exactly when it hits.
   */
  lemma KeywordMatchesInOrder(text: Option<String>, first: seq<String>, rest: seq<String>, k: String)
    ensures KeywordMatches(text, first + rest) == KeywordMatches(text, first) + KeywordMatches(text, rest)
    ensures KeywordMatches(text, [k]) == if Hits(text, k) then [k] else []
  {
    FilterAppend(first, rest, HitIn(text));
    FilterOne(k, HitIn(text));
  }

  /** A keyword written in the text itself, in any letter case and spacing, is found. */
  lemma KeywordFindsItself(keyword: String)
    requires NormalizeForMatch(Some(keyword)) != []
    ensures KeywordMatches(Some(keyword), [keyword]) == [keyword]
  {
    var k := NormalizeForMatch(Some(keyword));
    assert At(k, 0, k);
    assert Hits(Some(keyword), keyword);
  }

  /**
   * `_location_matches`: the first preferred location that hits the job's
   * location, or None. The flag `_location_matches` returns beside it is `r.Some?`.
   */
  function LocationMatch(jobLocation: Option<String>, locations: seq<String>): (r: Option<String>)
    ensures r.None? <==> forall j :: 0 <= j < |locations| ==> !Hits(jobLocation, locations[j])
    ensures r.Some? ==> exists i :: 0 <= i < |locations| && locations[i] == r.value && Hits(jobLocation, r.value)
                                    && forall j :: 0 <= j < i ==> !Hits(jobLocation, locations[j])
  {
    HitInEach(jobLocation, locations);
    match FirstIndex(locations, HitIn(jobLocation))
    case None => None
    case Some(i) => Some(locations[i])
  }

  lemma HitInEach(text: Option<String>, keywords: seq<String>)
    ensures forall j :: 0 <= j < |keywords| ==> HitIn(text)(keywords[j]) == Hits(text, keywords[j])
  {
  }

  // ---------------------------------------------------------------------------
  // Salary overlap
  // ---------------------------------------------------------------------------

  /** Python truthiness of an optional integer: None and 0 are false. */
  predicate Truthy(x: Option<int>) {
    x.Some? && x.value != 0
  }

  /** Python's `a or b` on optional integers. */
  function Or(a: Option<int>, b: Option<int>): (r: Option<int>)
    ensures Truthy(a) ==> r == a
    ensures !Truthy(a) ==> r == b
  {
    if Truthy(a) then a else b
  }

  /**
   * `_salary_in_range`. None is the TypeError the comparison raises when one
   * side is None: under `or` a bound of 0 counts as absent, so a job whose
   * only bound is 0 has no low end (or no high end) to compare. An absent
   * user maximum is +infinity, an absent user minimum is 0, and `and`
   * short-circuits.
   */
  function SalaryInRange(jobMin: Option<int>, jobMax: Option<int>, userMin: Option<int>, userMax: Option<int>): (r: Option<bool>)
    ensures jobMin.None? && jobMax.None? ==> r == Some(false)
    ensures (jobMin.Some? || jobMax.Some?) && userMin.None? && userMax.None? ==> r == Some(true)
  {
    if jobMin.None? && jobMax.None? then Some(false)
    else if userMin.None? && userMax.None? then Some(true)
    else
      var jobLow := Or(jobMin, jobMax);
      var jobHigh := Or(jobMax, jobMin);
      var userLow := if Truthy(userMin) then userMin.value else 0;
      if jobLow.None? then None
      else if Truthy(userMax) && jobLow.value > userMax.value then Some(false)
      else if jobHigh.None? then None
      else Some(jobHigh.value >= userLow)
  }

  /**
   * With no bound equal to 0, the test is interval overlap: the job's range
   * (a single bound standing for both ends) meets the user's range (absent
   * minimum 0, absent maximum unbounded).
   */
  lemma SalaryOverlap(jobMin: Option<int>, jobMax: Option<int>, userMin: Option<int>, userMax: Option<int>)
    requires jobMin.Some? || jobMax.Some?
    requires userMin.Some? || userMax.Some?
    requires jobMin != Some(0) && jobMax != Some(0) && userMin != Some(0) && userMax != Some(0)
    ensures var low := if jobMin.Some? then jobMin.value else jobMax.value;
            var high := if jobMax.Some? then jobMax.value else jobMin.value;
            var floor := if userMin.Some? then userMin.value else 0;
            SalaryInRange(jobMin, jobMax, userMin, userMax)
              == Some((userMax.None? || low <= userMax.value) && high >= floor)
  {
  }

  /**
   * Exactly when the comparison raises: the user gives a bound and the job's
   * only bound is 0 — as its minimum always, as its maximum unless the user's
   * maximum is negative (the first comparison then fails before the second
   * one reaches None).
   */
  lemma SalaryTypeError(jobMin: Option<int>, jobMax: Option<int>, userMin: Option<int>, userMax: Option<int>)
    ensures SalaryInRange(jobMin, jobMax, userMin, userMax).None?
        <==> (userMin.Some? || userMax.Some?)
             && ((jobMin == Some(0) && jobMax.None?)
                 || (jobMin.None? && jobMax == Some(0) && !(Truthy(userMax) && userMax.value < 0)))
  {
  }

  // ---------------------------------------------------------------------------
  // Scoring one job
  // ---------------------------------------------------------------------------

  /** `MatchDetails`. */
  datatype MatchDetails = MatchDetails(
    titleKeywordsMatched: seq<String>,
    descriptionKeywordsMatched: seq<String>,
    locationMatched: bool,
    locationValue: Option<String>,
    salaryInRange: bool,
    salaryValue: (Option<int>, Option<int>),
    titleScore: int,
    descriptionScore: int,
    locationScore: int,
    salaryScore: int)
  {
    function Total(): int {
      titleScore + descriptionScore + locationScore + salaryScore
    }
  }

  /** A JSON column holding a list of strings: null, a bare string, or a list. */
  datatype Json = JsonNull | JsonString(s: String) | JsonList(items: seq<String>)

  /** `value or []`, with a bare string wrapped in a list. */
  function AsList(j: Json): seq<String> {
    match j
    case JsonNull => []
    case JsonString(s) => if s == [] then [] else [s]
    case JsonList(items) => items
  }

  /** A `user_criteria` row. */
  datatype UserCriteria = UserCriteria(
    userId: nat,
    keywords: Json,
    locations: Json,
    minSalary: Option<int>,
    maxSalary: Option<int>,
    updatedAt: int)

  function NotIn(matched: seq<String>): String -> bool {
    k => k !in matched
  }

  /** `int(n / d * weight)`: the weight scaled by the fraction n/d, rounded down. */
  function Scaled(n: nat, d: nat, weight: nat): nat
    requires d > 0
  {
    n * weight / d
  }

  /** Multiplying by a positive factor keeps a strict order. */
  lemma MulStrict(a: int, b: int, k: int)
    requires a < b && k > 0
    ensures k * a < k * b
  {
    assert k * b - k * a == k * (b - a);
  }

  /** Multiplying by a non-negative factor keeps the order. */
  lemma MulMono(a: int, b: int, k: int)
    requires a <= b && k >= 0
    ensures k * a <= k * b
  {
    assert k * b - k * a == k * (b - a);
  }

  /** A fraction of at most one scales to at most the weight, and to the whole weight only when it is one. */
  lemma ScaledBounds(n: nat, d: nat, weight: nat)
    requires 0 < d && n <= d
    ensures Scaled(n, d, weight) <= weight
    ensures weight > 0 ==> (Scaled(n, d, weight) == weight <==> n == d)
  {
    var m := n * weight;
    var q := m / d;
    assert m == d * q + m % d && 0 <= m % d < d;
    assert m <= d * weight by {
      if n < d && weight > 0 {
        MulStrict(n, d, weight);
      }
    }
    if q > weight {
      MulStrict(weight, q, d);
      assert false;
    }
    if n == d && weight > 0 && q < weight {
      MulMono(1, weight - q, d);
      assert false;
    }
    if n < d && weight > 0 && q == weight {
      MulStrict(n, d, weight);
      assert false;
    }
  }

  /** The title component: the share of keywords matched in the title, times 40. */
  function TitleScore(keywords: seq<String>, title: seq<String>): int {
    if keywords == [] then 0 else Scaled(|title|, |keywords|, WeightTitle)
  }

  /**
   * The description component: the share of the keywords not matched in the
   * title that the description matches, times 30; when no keyword is left
   * over, 30 for any description match at all.
   */
  function DescriptionScore(keywords: seq<String>, title: seq<String>, desc: seq<String>, unique: seq<String>): int {
    if keywords == [] then 0
    else if |keywords| > |title| then Scaled(|unique|, |keywords| - |title|, WeightDescription)
    else if desc != [] then WeightDescription
    else 0
  }

  /** The details of a job scored against criteria, given the outcome of the salary test. */
  function Details(job: Job, c: UserCriteria, inRange: bool): MatchDetails {
    var keywords := AsList(c.keywords);
    var title := KeywordMatches(Some(job.title), keywords);
    var desc := KeywordMatches(job.description, keywords);
    var unique := Filter(desc, NotIn(title));
    var location := LocationMatch(job.location, AsList(c.locations));
    MatchDetails(title, unique, location.Some?, location, inRange, (job.salaryMin, job.salaryMax),
                 TitleScore(keywords, title), DescriptionScore(keywords, title, desc, unique),
                 if location.Some? then WeightLocation else 0, if inRange then WeightSalary else 0)
  }

  /**
   * `match_job_to_user`: the score and its details, or None when the salary
   * comparison raises. The salary test is always made.
   */
  function MatchJobToUser(job: Job, c: UserCriteria): (r: Option<(int, MatchDetails)>)
    ensures r.Some? <==> SalaryInRange(job.salaryMin, job.salaryMax, c.minSalary, c.maxSalary).Some?
    ensures r.Some? ==> r.value.0 == r.value.1.Total()
                        && r.value.1.salaryInRange == SalaryInRange(job.salaryMin, job.salaryMax, c.minSalary, c.maxSalary).value
  {
    match SalaryInRange(job.salaryMin, job.salaryMax, c.minSalary, c.maxSalary)
    case None => None
    case Some(inRange) =>
      var d := Details(job, c, inRange);
      Some((d.Total(), d))
  }

  /** Keywords that hit the description but not the title number at most the keywords that miss the title. */
  lemma UniqueDescriptionBound(title: Option<String>, description: Option<String>, keywords: seq<String>)
    ensures var t := KeywordMatches(title, keywords);
            |Filter(KeywordMatches(description, keywords), NotIn(t))| <= |keywords| - |t|
  {
    var t := KeywordMatches(title, keywords);
    var hitDesc := HitIn(description);
    var notTitle := NotIn(t);
    var both := (k: String) => hitDesc(k) && notTitle(k);
    var missTitle := (k: String) => !HitIn(title)(k);
    FilterFilter(keywords, hitDesc, notTitle, both);
    CountMonotone(keywords, both, missTitle);
    CountComplement(keywords, HitIn(title), missTitle);
  }

  /** Every component lies within its weight, so the total lies in [0, 100]. */
  lemma MatchScoreBounds(job: Job, c: UserCriteria, inRange: bool)
    ensures var d := Details(job, c, inRange);
            && 0 <= d.titleScore <= WeightTitle
            && 0 <= d.descriptionScore <= WeightDescription
            && d.locationScore in {0, WeightLocation}
            && d.salaryScore in {0, WeightSalary}
            && 0 <= d.Total() <= 100
  {
    var keywords := AsList(c.keywords);
    var title := KeywordMatches(Some(job.title), keywords);
    var desc := KeywordMatches(job.description, keywords);
    var unique := Filter(desc, NotIn(title));
    UniqueDescriptionBound(Some(job.title), job.description, keywords);
    ComponentBounds(keywords, title, desc, unique);
  }

  /** The title and description components stay within their weights. */
  lemma ComponentBounds(keywords: seq<String>, title: seq<String>, desc: seq<String>, unique: seq<String>)
    requires |title| <= |keywords| && |unique| <= |keywords| - |title|
    ensures 0 <= TitleScore(keywords, title) <= WeightTitle
    ensures 0 <= DescriptionScore(keywords, title, desc, unique) <= WeightDescription
  {
    if keywords != [] {
      ScaledBounds(|title|, |keywords|, WeightTitle);
      if |keywords| > |title| {
        ScaledBounds(|unique|, |keywords| - |title|, WeightDescription);
      }
    }
  }

  /** No keyword is counted in both the title and the description, and each description match hits the description. */
  lemma MatchDisjoint(job: Job, c: UserCriteria, inRange: bool)
    ensures var d := Details(job, c, inRange);
            && (forall i :: 0 <= i < |d.descriptionKeywordsMatched| ==>
                  d.descriptionKeywordsMatched[i] !in d.titleKeywordsMatched
                  && Hits(job.description, d.descriptionKeywordsMatched[i]))
            && (forall i :: 0 <= i < |d.titleKeywordsMatched| ==> Hits(Some(job.title), d.titleKeywordsMatched[i]))
  {
  }

  /** `CountWhere` reaches the length exactly when every element qualifies. */
  lemma CountAll<T>(s: seq<T>, p: T -> bool)
    ensures CountWhere(s, p) == |s| <==> forall i :: 0 <= i < |s| ==> p(s[i])
  {
    var q := (x: T) => !p(x);
    CountComplement(s, p, q);
  }

  /** With keywords, the title score is the full 40 exactly when every keyword hits the title. */
  lemma FullTitleScore(job: Job, c: UserCriteria, inRange: bool)
    requires AsList(c.keywords) != []
    ensures Details(job, c, inRange).titleScore == WeightTitle
        <==> forall i :: 0 <= i < |AsList(c.keywords)| ==> Hits(Some(job.title), AsList(c.keywords)[i])
  {
    var keywords := AsList(c.keywords);
    var t := KeywordMatches(Some(job.title), keywords);
    CountAll(keywords, HitIn(Some(job.title)));
    ScaledBounds(|t|, |keywords|, WeightTitle);
  }

  /** Some keyword matches exactly when some keyword hits the text. */
  lemma MatchesNonEmpty(text: Option<String>, keywords: seq<String>)
    ensures KeywordMatches(text, keywords) != [] <==> exists i :: 0 <= i < |keywords| && Hits(text, keywords[i])
  {
    var r := KeywordMatches(text, keywords);
    if r != [] {
      assert r[0] in keywords && Hits(text, r[0]);
      var i :| 0 <= i < |keywords| && keywords[i] == r[0];
    }
    if exists i :: 0 <= i < |keywords| && Hits(text, keywords[i]) {
      var i :| 0 <= i < |keywords| && Hits(text, keywords[i]);
      assert keywords[i] in r;
    }
  }

  /** When every keyword hit the title, the description earns all or nothing: 30 when some keyword hits it. */
  lemma AllKeywordsInTitle(job: Job, c: UserCriteria, inRange: bool)
    requires var keywords := AsList(c.keywords);
             keywords != [] && forall i :: 0 <= i < |keywords| ==> Hits(Some(job.title), keywords[i])
    ensures var keywords := AsList(c.keywords);
            var d := Details(job, c, inRange);
            && d.descriptionKeywordsMatched == []
            && (d.descriptionScore == WeightDescription <==> exists i :: 0 <= i < |keywords| && Hits(job.description, keywords[i]))
            && (d.descriptionScore == 0 <==> forall i :: 0 <= i < |keywords| ==> !Hits(job.description, keywords[i]))
  {
    var keywords := AsList(c.keywords);
    var t := KeywordMatches(Some(job.title), keywords);
    var desc := KeywordMatches(job.description, keywords);
    CountAll(keywords, HitIn(Some(job.title)));
    assert |t| == |keywords|;
    UniqueDescriptionBound(Some(job.title), job.description, keywords);
    assert |Filter(desc, NotIn(t))| == 0;
    MatchesNonEmpty(job.description, keywords);
    assert Details(job, c, inRange).descriptionScore == if desc != [] then WeightDescription else 0;
  }

  /** Without keywords the title and description earn nothing; without locations the location earns nothing. */
  lemma EmptyCriteriaScores(job: Job, c: UserCriteria, inRange: bool)
    ensures var d := Details(job, c, inRange);
            && (AsList(c.keywords) == [] ==>
                  d.titleScore == 0 && d.descriptionScore == 0
                  && d.titleKeywordsMatched == [] && d.descriptionKeywordsMatched == [])
            && (AsList(c.locations) == [] ==> d.locationScore == 0 && !d.locationMatched)
  {
  }

  /** The location and salary components: 15 exactly when a location hits, and exactly when the salaries overlap. */
  lemma LocationAndSalaryScores(job: Job, c: UserCriteria, inRange: bool)
    ensures var d := Details(job, c, inRange);
            var locations := AsList(c.locations);
            && (d.locationScore == WeightLocation <==> exists i :: 0 <= i < |locations| && Hits(job.location, locations[i]))
            && (d.salaryScore == WeightSalary <==> inRange)
  {
  }

  // ---------------------------------------------------------------------------
  // Matching every job for one user
  // ---------------------------------------------------------------------------

  /** `MatchSummary`. */
  datatype MatchSummary = MatchSummary(
    userId: nat,
    totalJobs: nat,
    jobsMatched: nat,
    jobsBelowThreshold: nat,
    newMatches: nat,
    existingMatches: nat)

  /** The `matched_jobs` table: one score per (user id, job id) pair, the pair being unique. */
  type MatchTable = map<(nat, nat), int>

  /** The score of one job, or None when scoring raises. */
  function JobScore(c: UserCriteria, job: Job): (r: Option<int>)
    ensures r.Some? <==> MatchJobToUser(job, c).Some?
  {
    match MatchJobToUser(job, c)
    case None => None
    case Some(m) => Some(m.0)
  }

  /** Scoring against fixed criteria, as a function of the job. */
  function ScoreAgainst(c: UserCriteria): Job -> Option<int> {
    job => JobScore(c, job)
  }

  /** One iteration: a job at or above the threshold updates its row or adds one; a job below it changes nothing. */
  function MatchStep(score: Job -> Option<int>, userId: nat, minScore: int, s: MatchSummary, table: MatchTable, job: Job)
    : Option<(MatchSummary, MatchTable)>
  {
    match score(job)
    case None => None
    case Some(points) =>
      if points >= minScore then
        var key := (userId, job.id);
        if key in table then
          Some((s.(jobsMatched := s.jobsMatched + 1, existingMatches := s.existingMatches + 1), table[key := points]))
        else
          Some((s.(jobsMatched := s.jobsMatched + 1, newMatches := s.newMatches + 1), table[key := points]))
      else
        Some((s.(jobsBelowThreshold := s.jobsBelowThreshold + 1), table))
  }

  /** The loop over the jobs; None once some job's scoring raised. */
  function MatchLoop(score: Job -> Option<int>, userId: nat, minScore: int, s: MatchSummary, table: MatchTable, jobs: seq<Job>)
    : Option<(MatchSummary, MatchTable)>
  {
    if jobs == [] then Some((s, table))
    else
      match MatchLoop(score, userId, minScore, s, table, jobs[..|jobs| - 1])
      case None => None
      case Some((s', table')) => MatchStep(score, userId, minScore, s', table', jobs[|jobs| - 1])
  }

  /**
   * The latest criteria of a user: one with the greatest `updated_at`.
   * `ORDER BY updated_at DESC LIMIT 1` leaves the choice among equal
   * timestamps to the database; this model takes the earliest in table order,
   * and the contract promises only the greatest timestamp.
   */
  function LatestCriteria(all: seq<UserCriteria>, userId: nat): (r: Option<UserCriteria>)
    ensures r.None? <==> forall i :: 0 <= i < |all| ==> all[i].userId != userId
    ensures r.Some? ==> r.value in all && r.value.userId == userId
    ensures r.Some? ==> forall i :: 0 <= i < |all| && all[i].userId == userId ==> all[i].updatedAt <= r.value.updatedAt
  {
    if all == [] then None
    else
      var prev := LatestCriteria(all[..|all| - 1], userId);
      var last := all[|all| - 1];
      assert forall i :: 0 <= i < |all| - 1 ==> all[..|all| - 1][i] == all[i];
      if last.userId == userId && (prev.None? || last.updatedAt > prev.value.updatedAt) then Some(last) else prev
  }

  /** The summary of a user that does not exist or has no criteria. */
  function EmptySummary(userId: nat): MatchSummary {
    MatchSummary(userId, 0, 0, 0, 0, 0)
  }

  /**
   * `match_all_for_user`: the summary and the table after commit, or None
   * when scoring some job raised (the session is rolled back and the
   * exception re-raised, so the table is as before).
   */
  function MatchAllSpec(users: set<nat>, criteria: seq<UserCriteria>, jobs: seq<Job>, table: MatchTable,
                        userId: nat, minScore: int): Option<(MatchSummary, MatchTable)>
  {
    if userId !in users then Some((EmptySummary(userId), table))
    else
      match LatestCriteria(criteria, userId)
      case None => Some((EmptySummary(userId), table))
      case Some(c) => MatchLoop(ScoreAgainst(c), userId, minScore, EmptySummary(userId).(totalJobs := |jobs|), table, jobs)
  }

  /** Counters after the loop: every job is matched or below the threshold, every match is new or existing. */
  lemma {:induction false} MatchLoopCounts(score: Job -> Option<int>, userId: nat, minScore: int, s: MatchSummary,
                                           table: MatchTable, jobs: seq<Job>)
    requires MatchLoop(score, userId, minScore, s, table, jobs).Some?
    ensures var s' := MatchLoop(score, userId, minScore, s, table, jobs).value.0;
            && s'.userId == s.userId && s'.totalJobs == s.totalJobs
            && s'.jobsMatched + s'.jobsBelowThreshold == s.jobsMatched + s.jobsBelowThreshold + |jobs|
            && s'.newMatches + s'.existingMatches + s.jobsMatched == s.newMatches + s.existingMatches + s'.jobsMatched
    decreases |jobs|
  {
    if jobs != [] {
      MatchLoopCounts(score, userId, minScore, s, table, jobs[..|jobs| - 1]);
    }
  }

  /** `jobs_matched + jobs_below_threshold == total_jobs` and `new_matches + existing_matches == jobs_matched`. */
  lemma MatchSummaryIdentities(users: set<nat>, criteria: seq<UserCriteria>, jobs: seq<Job>, table: MatchTable,
                               userId: nat, minScore: int)
    requires MatchAllSpec(users, criteria, jobs, table, userId, minScore).Some?
    ensures var s := MatchAllSpec(users, criteria, jobs, table, userId, minScore).value.0;
            && s.userId == userId
            && s.jobsMatched + s.jobsBelowThreshold == s.totalJobs
            && s.newMatches + s.existingMatches == s.jobsMatched
  {
    if userId in users && LatestCriteria(criteria, userId).Some? {
      var c := LatestCriteria(criteria, userId).value;
      MatchLoopCounts(ScoreAgainst(c), userId, minScore, EmptySummary(userId).(totalJobs := |jobs|), table, jobs);
    }
  }

  /** Once a job's scoring raised, the rest of the loop cannot bring the pass back. */
  lemma {:induction false} MatchLoopRaised(score: Job -> Option<int>, userId: nat, minScore: int, s: MatchSummary,
                                           table: MatchTable, jobs: seq<Job>, k: nat)
    requires k <= |jobs|
    requires MatchLoop(score, userId, minScore, s, table, jobs[..k]).None?
    ensures MatchLoop(score, userId, minScore, s, table, jobs).None?
    decreases |jobs|
  {
    if k < |jobs| {
      assert jobs[..|jobs| - 1][..k] == jobs[..k];
      MatchLoopRaised(score, userId, minScore, s, table, jobs[..|jobs| - 1], k);
    } else {
      assert jobs[..k] == jobs;
    }
  }

  /** The pass completes exactly when no job's scoring raises. */
  lemma {:induction false} MatchLoopCompletes(score: Job -> Option<int>, userId: nat, minScore: int, s: MatchSummary,
                                              table: MatchTable, jobs: seq<Job>)
    ensures MatchLoop(score, userId, minScore, s, table, jobs).Some?
        <==> forall i :: 0 <= i < |jobs| ==> score(jobs[i]).Some?
    decreases |jobs|
  {
    if jobs != [] {
      var init := jobs[..|jobs| - 1];
      MatchLoopCompletes(score, userId, minScore, s, table, init);
      assert forall i :: 0 <= i < |init| ==> init[i] == jobs[i];
    }
  }

  /** A pair is touched by the pass when it is this user's pair with one of the jobs. */
  ghost predicate Touches(jobs: seq<Job>, userId: nat, key: (nat, nat)) {
    key.0 == userId && exists i :: 0 <= i < |jobs| && jobs[i].id == key.1
  }

  /** A pair the pass does not touch keeps its row, or its absence. */
  lemma {:induction false} MatchLoopKeepsOthers(score: Job -> Option<int>, userId: nat, minScore: int, s: MatchSummary,
                                                table: MatchTable, jobs: seq<Job>, key: (nat, nat))
    requires MatchLoop(score, userId, minScore, s, table, jobs).Some?
    requires !Touches(jobs, userId, key)
    ensures var t := MatchLoop(score, userId, minScore, s, table, jobs).value.1;
            (key in t <==> key in table) && (key in table ==> t[key] == table[key])
    decreases |jobs|
  {
    if jobs != [] {
      var init := jobs[..|jobs| - 1];
      assert !Touches(init, userId, key) by {
        forall i | 0 <= i < |init| ensures init[i].id != key.1 || key.0 != userId {
          assert init[i] == jobs[i];
        }
      }
      assert key != (userId, jobs[|jobs| - 1].id);
      MatchLoopKeepsOthers(score, userId, minScore, s, table, init, key);
    }
  }

  /** No row is deleted. */
  lemma {:induction false} MatchLoopKeepsRows(score: Job -> Option<int>, userId: nat, minScore: int, s: MatchSummary,
                                              table: MatchTable, jobs: seq<Job>)
    requires MatchLoop(score, userId, minScore, s, table, jobs).Some?
    ensures table.Keys <= MatchLoop(score, userId, minScore, s, table, jobs).value.1.Keys
    decreases |jobs|
  {
    if jobs != [] {
      MatchLoopKeepsRows(score, userId, minScore, s, table, jobs[..|jobs| - 1]);
    }
  }

  /**
   * With job ids unique, every job at or above the threshold ends with its
   * (user, job) row holding its score, and every job below it leaves its row,
   * or its absence, as it was.
   */
  lemma {:induction false} MatchLoopWrites(score: Job -> Option<int>, userId: nat, minScore: int, s: MatchSummary,
                                           table: MatchTable, jobs: seq<Job>)
    requires UniqueIds(jobs)
    requires MatchLoop(score, userId, minScore, s, table, jobs).Some?
    ensures var t := MatchLoop(score, userId, minScore, s, table, jobs).value.1;
            forall i :: 0 <= i < |jobs| ==>
              && score(jobs[i]).Some?
              && (var key := (userId, jobs[i].id);
                  if score(jobs[i]).value >= minScore then key in t && t[key] == score(jobs[i]).value
                  else (key in t <==> key in table) && (key in table ==> t[key] == table[key]))
    decreases |jobs|
  {
    if jobs != [] {
      var n := |jobs| - 1;
      var init := jobs[..n];
      assert UniqueIds(init) by {
        forall a, b | 0 <= a < b < |init| ensures init[a].id != init[b].id {
          assert init[a] == jobs[a] && init[b] == jobs[b];
        }
      }
      MatchLoopWrites(score, userId, minScore, s, table, init);
      var t' := MatchLoop(score, userId, minScore, s, table, init).value.1;
      var t := MatchLoop(score, userId, minScore, s, table, jobs).value.1;
      var last := (userId, jobs[n].id);
      assert forall key :: key != last ==> (key in t <==> key in t') && (key in t' ==> t[key] == t'[key]);
      forall i | 0 <= i < n
        ensures score(jobs[i]).Some?
        ensures var key := (userId, jobs[i].id);
                if score(jobs[i]).value >= minScore then key in t && t[key] == score(jobs[i]).value
                else (key in t <==> key in table) && (key in table ==> t[key] == table[key])
      {
        assert init[i] == jobs[i];
        assert jobs[i].id != jobs[n].id;
      }
      if score(jobs[n]).value < minScore {
        assert !Touches(init, userId, last) by {
          forall i | 0 <= i < |init| ensures init[i].id != jobs[n].id {
            assert init[i] == jobs[i];
          }
        }
        MatchLoopKeepsOthers(score, userId, minScore, s, table, init, last);
      }
    }
  }

  /** The `matched_jobs` table as the matcher sees it. */
  class MatchStore {
    var scores: MatchTable

    constructor (initial: MatchTable)
      ensures scores == initial
    {
      scores := initial;
    }

    /**
     * `match_all_for_user`: scores every job against the user's latest
     * criteria on a session, then commits; when scoring raises, the session
     * is rolled back and None is returned for the re-raised exception.
     */
    method MatchAllForUser(users: set<nat>, criteria: seq<UserCriteria>, jobs: seq<Job>, userId: nat, minScore: int)
      returns (summary: Option<MatchSummary>)
      modifies this
      ensures MatchAllSpec(users, criteria, jobs, old(scores), userId, minScore).None? ==>
                summary.None? && scores == old(scores)
      ensures MatchAllSpec(users, criteria, jobs, old(scores), userId, minScore).Some? ==>
                (summary.Some? && (summary.value, scores) == MatchAllSpec(users, criteria, jobs, old(scores), userId, minScore).value)
      ensures userId !in users || LatestCriteria(criteria, userId).None? ==>
                summary == Some(EmptySummary(userId)) && scores == old(scores)
    {
      if userId !in users {
        return Some(EmptySummary(userId));
      }
      var latest := LatestCriteria(criteria, userId);
      if latest.None? {
        return Some(EmptySummary(userId));
      }
      var c := latest.value;
      var s := EmptySummary(userId).(totalJobs := |jobs|);
      var session := scores;
      var i := 0;
      while i < |jobs|
        invariant 0 <= i <= |jobs|
        invariant scores == old(scores)
        invariant MatchLoop(ScoreAgainst(c), userId, minScore, EmptySummary(userId).(totalJobs := |jobs|), scores, jobs[..i])
               == Some((s, session))
      {
        var job := jobs[i];
        assert MatchLoop(ScoreAgainst(c), userId, minScore, EmptySummary(userId).(totalJobs := |jobs|), scores, jobs[..i + 1])
            == MatchStep(ScoreAgainst(c), userId, minScore, s, session, job) by {
          assert jobs[..i + 1][..i] == jobs[..i];
        }
        var m := MatchJobToUser(job, c);
        if m.None? {
          assert ScoreAgainst(c)(job).None?;
          MatchLoopRaised(ScoreAgainst(c), userId, minScore, EmptySummary(userId).(totalJobs := |jobs|), scores, jobs, i + 1);
          return None;
        }
        var score := m.value.0;
        assert ScoreAgainst(c)(job) == Some(score);
        var key := (userId, job.id);
        if score >= minScore && key in session {
          s, session := s.(jobsMatched := s.jobsMatched + 1, existingMatches := s.existingMatches + 1), session[key := score];
        } else if score >= minScore {
          s, session := s.(jobsMatched := s.jobsMatched + 1, newMatches := s.newMatches + 1), session[key := score];
        } else {
          s := s.(jobsBelowThreshold := s.jobsBelowThreshold + 1);
        }
        i := i + 1;
      }
      assert jobs[..i] == jobs;
      scores := session;
      summary := Some(s);
    }
  }
}
