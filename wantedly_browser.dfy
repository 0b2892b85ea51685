/**
 * The Wantedly browser scraper (src/scrapers/wantedly_browser.py): keyword
 * search URLs with a page number, project links read from the rendered
 * page with their titles cleaned of entry counts, a page loop that stops at
 * the first page bringing no new job, and the scroll loop that waits for the
 * link count to settle.
 */
module WantedlyBrowser {
  import opened Wrappers
  import opened Text
  import opened Listing
  import SalaryScan
  import PathIds
  import Wantedly

  const BaseUrl: String := "https://www.wantedly.com"
  const SearchUrl: String := "https://www.wantedly.com/projects"

  // ---------------------------------------------------------------------------
  // Search URL

  /**
   * `_build_search_url`: `SEARCH_URL?page={page}&keywords={quote(" ".join(keywords))}`,
   * with `urllib.parse.quote` given as `quote`.
   */
  function BuildSearchUrl(keywords: seq<String>, page: nat, quote: String -> String): (r: String)
    ensures StartsWith(r, SearchUrl + "?page=")
    ensures EndsWith(r, "&keywords=" + quote(Join(keywords, " ")))
    ensures r == SearchUrl + "?page=" + NatToString(page) + "&keywords=" + quote(Join(keywords, " "))
  {
    var tail := "&keywords=" + quote(Join(keywords, " "));
    var r := SearchUrl + "?page=" + NatToString(page) + tail;
    assert r[|r| - |tail|..] == tail;
    r
  }

  /** A location is searched for as one more keyword, after a space. */
  lemma LocationIsKeyword(keywords: seq<String>, location: String, page: nat, quote: String -> String)
    requires keywords != [] && location != []
    ensures EndsWith(BuildSearchUrl(SearchTerms(keywords, Some(location)), page, quote),
                     "&keywords=" + quote(Join(keywords, " ") + " " + location))
  {
    JoinSnoc(keywords, location, " ");
  }

  /** The run of digits at the front of `a + x` is `a` when `x` starts with something else. */
  lemma DigitRunBefore(a: String, x: String)
    requires AllDigits(a)
    requires x != [] && !IsDigit(x[0])
    ensures SalaryScan.DigitRunEnd(a + x, 0) == |a|
  {
    assert (a + x)[..|a|] == a;
    assert (a + x)[|a|] == x[0];
    SalaryScan.DigitRunEndAt(a + x, 0, |a|);
  }

  /** Two runs of digits, each followed by something that is not a digit, spell the same text only when they are the same. */
  lemma DigitsCancel(a: String, b: String, x: String, y: String)
    requires AllDigits(a) && AllDigits(b)
    requires x != [] && !IsDigit(x[0]) && y != [] && !IsDigit(y[0])
    requires a + x == b + y
    ensures a == b
  {
    DigitRunBefore(a, x);
    DigitRunBefore(b, y);
    assert a == (a + x)[..|a|];
    assert b == (b + y)[..|b|];
  }

  /** What follows a prefix. */
  lemma DropPrefix(pre: String, a: String, tail: String)
    ensures (pre + a + tail)[|pre|..] == a + tail
  {
  }

  /** Different pages of one search have different URLs. */
  lemma SearchUrlPagesDiffer(keywords: seq<String>, quote: String -> String, p: nat, q: nat)
    ensures BuildSearchUrl(keywords, p, quote) == BuildSearchUrl(keywords, q, quote) <==> p == q
  {
    if BuildSearchUrl(keywords, p, quote) == BuildSearchUrl(keywords, q, quote) {
      var pre := SearchUrl + "?page=";
      var tail := "&keywords=" + quote(Join(keywords, " "));
      var a := NatToString(p);
      var b := NatToString(q);
      DropPrefix(pre, a, tail);
      DropPrefix(pre, b, tail);
      DigitsCancel(a, b, tail, tail);
    }
  }

  // ---------------------------------------------------------------------------
  // Titles

  const EntryWord: String := "エントリー"

  /**
   * `\d+\s*エントリー` at the start of `s`: the end of the match, or None.
   * Backtracking cannot help a failed match: fewer digits leave a digit where
   * a space or "エ" is needed, and fewer spaces leave a space where "エ" is.
   */
  function EntryCountEnd(s: String): (r: Option<nat>)
    ensures r.Some? ==> |EntryWord| < r.value <= |s| && IsDigit(s[0])
    ensures r.Some? ==> At(s, r.value - |EntryWord|, EntryWord)
  {
    if s == [] || !IsDigit(s[0]) then None
    else
      var d := SalaryScan.DigitRunEnd(s, 0);
      var e := SpaceRunEnd(s, d);
      if At(s, e, EntryWord) then Some(e + |EntryWord|) else None
  }

  /** The text starts with an entry count: digits up to `d`, whitespace up to `m`, then "エントリー". */
  predicate EntryCountAt(s: String, d: nat, m: nat) {
    0 < d <= m <= |s| && AllDigits(s[..d]) && AllSpaces(s[d..m]) && At(s, m, EntryWord)
  }

  /** Every end the scanner reports is the end of an entry count at the front. */
  lemma EntryCountEndSound(s: String)
    ensures EntryCountEnd(s).Some? ==>
              exists d: nat, m: nat :: EntryCountAt(s, d, m) && EntryCountEnd(s).value == m + |EntryWord|
  {
    if EntryCountEnd(s).Some? {
      var d := SalaryScan.DigitRunEnd(s, 0);
      var m := SpaceRunEnd(s, d);
      assert AllDigits(s[..d]) by {
        assert forall i :: 0 <= i < d ==> s[..d][i] == s[i];
      }
      assert AllSpaces(s[d..m]) by {
        assert forall i :: 0 <= i < m - d ==> s[d..m][i] == s[d + i];
      }
      assert EntryCountAt(s, d, m);
    }
  }

  /** An entry count at the front is found whole, so None means that no entry count starts the text. */
  lemma EntryCountEndComplete(s: String, d: nat, m: nat)
    requires EntryCountAt(s, d, m)
    ensures EntryCountEnd(s) == Some(m + |EntryWord|)
  {
    assert s[0] == s[..d][0];
    assert s[m] == EntryWord[0];
    assert !IsDigit(s[d]) by {
      if d < m {
        assert s[d] == s[d..m][0];
      }
    }
    assert forall i :: d <= i < m ==> IsSpace(s[i]) by {
      assert forall i :: d <= i < m ==> s[i] == s[d..m][i - d];
    }
    assert AllDigits(s[0..d]) by {
      assert s[0..d] == s[..d];
    }
    SalaryScan.DigitRunEndAt(s, 0, d);
    SpaceRunEndAt(s, d, m);
  }

  /** `re.sub(r'\d+\s*エントリー', '', s)`: every entry count, leftmost first, removed. */
  function RemoveEntryCounts(s: String): (r: String)
    ensures |r| <= |s|
    decreases |s|
  {
    if s == [] then []
    else
      match EntryCountEnd(s)
      case Some(e) => RemoveEntryCounts(s[e..])
      case None => [s[0]] + RemoveEntryCounts(s[1..])
  }

  /** Text without the word "エントリー" is left as it is. */
  lemma {:induction false} KeepsTextWithoutEntryWord(s: String)
    requires !Contains(s, EntryWord)
    ensures RemoveEntryCounts(s) == s
    decreases |s|
  {
    if s != [] {
      match EntryCountEnd(s)
      case Some(e) =>
        AtContains(s, e - |EntryWord|, EntryWord);
        assert false;
      case None =>
        assert !Contains(s[1..], EntryWord) by {
          forall i | 0 <= i <= |s[1..]| && At(s[1..], i, EntryWord) ensures false {
            assert s[1..][i..i + |EntryWord|] == s[i + 1..i + 1 + |EntryWord|];
            AtContains(s, i + 1, EntryWord);
          }
        }
        KeepsTextWithoutEntryWord(s[1..]);
    }
  }

  /** Text without digits in front is kept as it is: no entry count starts in it. */
  lemma {:induction false} KeepsDigitFreePrefix(a: String, b: String)
    requires forall i :: 0 <= i < |a| ==> !IsDigit(a[i])
    ensures RemoveEntryCounts(a + b) == a + RemoveEntryCounts(b)
    decreases |a|
  {
    if a != [] {
      FirstAndRest(a, b);
      NoDigitNoCount(a[0], a[1..] + b);
      DigitKept(a[0], a[1..] + b);
      KeepsDigitFreePrefix(a[1..], b);
      FirstAndRest(a, RemoveEntryCounts(b));
    } else {
      assert a + b == b;
    }
  }

  /**
   * What may follow a run of digits that is no entry count: not another
   * digit, and no "エントリー" after the whitespace at its front.
   */
  predicate NotCountTail(rest: String) {
    && (rest == [] || !IsDigit(rest[0]))
    && !At(rest, SpaceRunEnd(rest, 0), EntryWord)
  }

  /** A run of digits followed by anything but whitespace and "エントリー" starts no entry count. */
  lemma NoEntryCountAfterDigits(digits: String, rest: String)
    requires |digits| > 0 && AllDigits(digits)
    requires NotCountTail(rest)
    ensures EntryCountEnd(digits + rest).None?
  {
    var m := SpaceRunEnd(rest, 0);
    RunsAfterDigits(digits, rest);
    AtAfter(digits, rest, m);
  }

  /** In `digits + rest` the digits end where `rest` starts, and its whitespace run is the one in front of `rest`. */
  lemma RunsAfterDigits(digits: String, rest: String)
    requires |digits| > 0 && AllDigits(digits)
    requires rest == [] || !IsDigit(rest[0])
    ensures IsDigit((digits + rest)[0])
    ensures SalaryScan.DigitRunEnd(digits + rest, 0) == |digits|
    ensures SpaceRunEnd(digits + rest, |digits|) == |digits| + SpaceRunEnd(rest, 0)
  {
    var s := digits + rest;
    var n := |digits|;
    assert s[0..n] == digits;
    assert n < |s| ==> s[n] == rest[0];
    SalaryScan.DigitRunEndAt(s, 0, n);
    var m := SpaceRunEnd(rest, 0);
    assert forall i :: n <= i < n + m ==> s[i] == rest[i - n];
    assert n + m < |s| ==> s[n + m] == rest[m];
    SpaceRunEndAt(s, n, n + m);
  }

  /** A word occurs in `rest` at `m` exactly when it occurs in `a + rest` at `|a| + m`. */
  lemma AtAfter(a: String, rest: String, m: nat)
    ensures At(a + rest, |a| + m, EntryWord) == At(rest, m, EntryWord)
  {
    if m + |EntryWord| <= |rest| {
      assert (a + rest)[|a| + m..|a| + m + |EntryWord|] == rest[m..m + |EntryWord|];
    }
  }


  /**
   * A run of digits that is not followed by whitespace and "エントリー" is
   * kept, and the removal goes on after it.
   */
  lemma {:induction false} KeepsDigitRun(digits: String, rest: String)
    requires AllDigits(digits)
    requires NotCountTail(rest)
    ensures RemoveEntryCounts(digits + rest) == digits + RemoveEntryCounts(rest)
    decreases |digits|
  {
    if digits == [] {
      assert digits + rest == rest;
    } else {
      DigitRunStep(digits, rest);
      DigitsTail(digits);
      KeepsDigitRun(digits[1..], rest);
      FirstAndRest(digits, RemoveEntryCounts(rest));
    }
  }

  /** The first digit of a run that is no entry count is kept. */
  lemma DigitRunStep(digits: String, rest: String)
    requires |digits| > 0 && AllDigits(digits)
    requires NotCountTail(rest)
    ensures RemoveEntryCounts(digits + rest) == [digits[0]] + RemoveEntryCounts(digits[1..] + rest)
  {
    NoEntryCountAfterDigits(digits, rest);
    FirstAndRest(digits, rest);
    DigitKept(digits[0], digits[1..] + rest);
  }

  /** No entry count starts at a character that is not a digit. */
  lemma NoDigitNoCount(c: char, t: String)
    requires !IsDigit(c)
    ensures EntryCountEnd([c] + t).None?
  {
    assert ([c] + t)[0] == c;
  }

  /** A title in front of its entry count, regrouped as the year and what follows it. */
  lemma Regroup(year: String, name: String, digits: String, spaces: String)
    requires name != []
    ensures year + name + digits + spaces + EntryWord == year + (name + digits + spaces + EntryWord)
    ensures (name + digits + spaces + EntryWord)[0] == name[0]
  {
  }

  /** A text is its first character followed by the others. */
  lemma FirstAndRest(a: String, x: String)
    requires a != []
    ensures [a[0]] + (a[1..] + x) == a + x
  {
    assert [a[0]] + a[1..] == a;
  }

  /** The digits after the first of a run of digits are a run of digits. */
  lemma DigitsTail(digits: String)
    requires digits != [] && AllDigits(digits)
    ensures AllDigits(digits[1..])
  {
    assert forall i :: 0 <= i < |digits| - 1 ==> digits[1..][i] == digits[i + 1];
  }

  /** A character that starts no entry count is kept, and the removal goes on after it. */
  lemma DigitKept(c: char, t: String)
    requires EntryCountEnd([c] + t).None?
    ensures RemoveEntryCounts([c] + t) == [c] + RemoveEntryCounts(t)
  {
    assert ([c] + t)[0] == c;
    assert ([c] + t)[1..] == t;
  }

  /** A text that starts with none of a digit, whitespace or "エ" can follow a digit run that is no entry count. */
  lemma NoEntryWordAtFront(rest: String)
    requires rest != [] && !IsSpace(rest[0]) && rest[0] != EntryWord[0] && !IsDigit(rest[0])
    ensures NotCountTail(rest)
  {
    SpaceRunEndAt(rest, 0, 0);
    assert |rest| >= |EntryWord| ==> rest[0..|EntryWord|][0] == rest[0];
  }

  /**
   * Digits that start a title, as the year in "2024年卒 デザイナー 3エントリー",
   * stay; only the entry count at the end is removed.
   */
  lemma KeepsDigitsBeforeTitle(year: String, name: String, digits: String, spaces: String)
    requires AllDigits(year)
    requires name != [] && !IsSpace(name[0]) && name[0] != EntryWord[0]
    requires forall i :: 0 <= i < |name| ==> !IsDigit(name[i])
    requires |digits| > 0 && AllDigits(digits)
    requires AllSpaces(spaces)
    ensures RemoveEntryCounts(year + name + digits + spaces + EntryWord) == year + name
  {
    var rest := name + digits + spaces + EntryWord;
    Regroup(year, name, digits, spaces);
    NoEntryWordAtFront(rest);
    KeepsDigitRun(year, rest);
    CleanedBeforeEntryCount(name, digits, spaces);
  }

  /** An entry count at the front, with any run of whitespace before "エントリー", is removed. */
  lemma DropsEntryCount(digits: String, spaces: String, rest: String)
    requires |digits| > 0 && AllDigits(digits)
    requires forall i :: 0 <= i < |spaces| ==> IsSpace(spaces[i])
    ensures RemoveEntryCounts(digits + spaces + EntryWord + rest) == RemoveEntryCounts(rest)
  {
    var s := digits + spaces + EntryWord + rest;
    var d := |digits|;
    var e := d + |spaces|;
    assert s[..d] == digits;
    assert s[d..e] == spaces;
    assert s[e..e + |EntryWord|] == EntryWord;
    assert s[d] == (if spaces == [] then EntryWord[0] else spaces[0]);
    SalaryScan.DigitRunEndAt(s, 0, d);
    SpaceRunEndAt(s, d, e);
    assert EntryCountEnd(s) == Some(e + |EntryWord|);
    assert s[e + |EntryWord|..] == rest;
  }

  /**
   * The title of a link in `_parse_job_cards`: its text stripped, rejected
   * below five characters; otherwise cleaned of entry counts, stripped again
   * and cut to 200 characters.
   */
  function CardTitle(l: Wantedly.Link): (r: Option<String>)
    ensures r.None? <==> |Strip(l.text)| < 5
    ensures r.Some? ==> |r.value| <= 200 && StartsWith(Strip(RemoveEntryCounts(Strip(l.text))), r.value)
    ensures r.Some? ==> var cleaned := Strip(RemoveEntryCounts(Strip(l.text)));
                        |r.value| == if |cleaned| < 200 then |cleaned| else 200
  {
    var t := Strip(l.text);
    if |t| < 5 then None else Some(Truncate(Strip(RemoveEntryCounts(t)), 200))
  }

  /** Entry counts are removed behind a digit-free title. */
  lemma CleanedBeforeEntryCount(name: String, digits: String, spaces: String)
    requires forall i :: 0 <= i < |name| ==> !IsDigit(name[i])
    requires |digits| > 0 && AllDigits(digits)
    requires forall i :: 0 <= i < |spaces| ==> IsSpace(spaces[i])
    ensures RemoveEntryCounts(name + digits + spaces + EntryWord) == name
  {
    CountAfterName(name, digits, spaces);
    KeepsDigitFreePrefix(name, digits + spaces + EntryWord);
    DropsEntryCount(digits, spaces, []);
  }

  /** A title followed by its entry count, regrouped as the title and the count. */
  lemma CountAfterName(name: String, digits: String, spaces: String)
    ensures name + digits + spaces + EntryWord == name + (digits + spaces + EntryWord)
    ensures digits + spaces + EntryWord == digits + spaces + EntryWord + []
  {
  }

  /** A link whose text is a digit-free title followed by an entry count gets that title. */
  lemma TitleBeforeEntryCount(l: Wantedly.Link, name: String, digits: String, spaces: String)
    requires l.text == name + digits + spaces + EntryWord
    requires IsStripped(name) && |name| >= 1 && |name| <= 200
    requires forall i :: 0 <= i < |name| ==> !IsDigit(name[i])
    requires |digits| > 0 && AllDigits(digits)
    requires forall i :: 0 <= i < |spaces| ==> IsSpace(spaces[i])
    ensures CardTitle(l) == Some(name)
  {
    assert IsStripped(l.text) by {
      assert l.text[0] == name[0];
      assert l.text[|l.text| - 1] == EntryWord[|EntryWord| - 1];
    }
    StripStripped(l.text);
    CleanedBeforeEntryCount(name, digits, spaces);
    StripStripped(name);
  }

  /** A text that is only an entry count is long enough to be kept, and its title comes out empty. */
  lemma EntryCountOnlyTitle(l: Wantedly.Link)
    requires l.text == "12" + EntryWord
    ensures CardTitle(l) == Some("")
  {
    CountOnlyShape();
    StripStripped(l.text);
    DropsEntryCount("12", [], []);
    assert Strip([]) == [];
  }

  /** "12エントリー" is stripped, and is a run of digits, no whitespace and the entry word. */
  lemma CountOnlyShape()
    ensures IsStripped("12" + EntryWord) && AllDigits("12")
    ensures "12" + EntryWord == "12" + [] + EntryWord + []
  {
  }

  // ---------------------------------------------------------------------------
  // Job cards

  /** The URL of a project: `{BASE_URL}/projects/{project_id}`. */
  function CardUrl(): (String, Wantedly.Link) -> String {
    (id: String, l: Wantedly.Link) => BaseUrl + Wantedly.ProjectPath + id
  }

  /** The URL built for a project holds the project's id again. */
  lemma CardUrlHoldsId(id: String, l: Wantedly.Link)
    requires |id| > 0 && AllDigits(id)
    ensures PathIds.FindId(CardUrl()(id, l), Wantedly.ProjectPath) == Some(id)
  {
    var url := BaseUrl + Wantedly.ProjectPath + id;
    var front := BaseUrl + Wantedly.ProjectPath[..4];
    assert 'j' !in front;
    assert url[..|front|] == front;
    forall q | 0 <= q < |BaseUrl| ensures !At(url, q, Wantedly.ProjectPath) {
      assert url[q + 4] == front[q + 4];
      assert url[q..q + |Wantedly.ProjectPath|][4] == url[q + 4];
    }
    PathIds.IdAfterPrefix(BaseUrl, Wantedly.ProjectPath, id);
  }

  /** `_parse_job_cards` as a function of the page's project links. */
  function CardParser(): seq<Wantedly.Link> -> seq<Listing> {
    links => Wantedly.ScanLinks(links, CardTitle, CardUrl()).0
  }

  /** `_parse_job_cards`: the links in order, with the set of ids already seen on this page. */
  method ParseJobCards(links: seq<Wantedly.Link>) returns (jobs: seq<Listing>)
    ensures jobs == Wantedly.ScanLinks(links, CardTitle, CardUrl()).0
    ensures Wantedly.DistinctIds(jobs)
  {
    jobs := Wantedly.CollectLinks(links, CardTitle, CardUrl());
  }

  // ---------------------------------------------------------------------------
  // Scrolling

  /**
   * The count `_scroll_to_load_more` returns from scroll `i` on, given the
   * link count `counts(i)` seen at each scroll and the count `last` recorded
   * before: it stops after `max_scrolls` scrolls, or at a scroll after the
   * first whose count equals the one recorded before it.
   */
  function Scrolled(counts: nat -> nat, i: nat, maxScrolls: nat, last: nat): nat
    decreases maxScrolls - i
  {
    if i >= maxScrolls then last
    else if counts(i) == last && i > 0 then last
    else Scrolled(counts, i + 1, maxScrolls, counts(i))
  }

  /** `_scroll_to_load_more`, with the page's link count at each scroll given as `counts`. */
  method ScrollToLoadMore(counts: nat -> nat, maxScrolls: int) returns (lastCount: nat)
    ensures lastCount == Scrolled(counts, 0, if maxScrolls < 0 then 0 else maxScrolls, 0)
  {
    var max: nat := if maxScrolls < 0 then 0 else maxScrolls;
    lastCount := 0;
    var i: nat := 0;
    while i < max
      invariant i <= max
      invariant Scrolled(counts, 0, max, 0) == Scrolled(counts, i, max, lastCount)
    {
      var current := counts(i);
      if current == lastCount && i > 0 {
        break;
      }
      lastCount := current;
      i := i + 1;
    }
  }

  /** The counts grow or shrink at every scroll from `i` to `k`. */
  predicate ChangesThrough(counts: nat -> nat, i: nat, k: nat) {
    forall j :: 0 < j && i <= j <= k ==> counts(j) != counts(j - 1)
  }

  /**
   * The last scroll made from scroll `i` on, when the count of scroll `i - 1`
   * was the one recorded: the scroll before the first whose count repeats the
   * one before it, or the last scroll allowed.
   */
  function LastScroll(counts: nat -> nat, i: nat, maxScrolls: nat): (k: nat)
    requires 1 <= i <= maxScrolls
    ensures i - 1 <= k < maxScrolls
    ensures ChangesThrough(counts, i, k)
    ensures k + 1 == maxScrolls || counts(k + 1) == counts(k)
    decreases maxScrolls - i
  {
    if i == maxScrolls || counts(i) == counts(i - 1) then i - 1 else LastScroll(counts, i + 1, maxScrolls)
  }

  /** From scroll `i` on, the count returned is the count of the last scroll made. */
  lemma {:induction false} ScrolledFrom(counts: nat -> nat, i: nat, maxScrolls: nat)
    requires 1 <= i <= maxScrolls
    ensures Scrolled(counts, i, maxScrolls, counts(i - 1)) == counts(LastScroll(counts, i, maxScrolls))
    decreases maxScrolls - i
  {
    if i < maxScrolls && counts(i) != counts(i - 1) {
      ScrolledFrom(counts, i + 1, maxScrolls);
    }
  }

  /**
   * What `_scroll_to_load_more` returns: 0 when it may not scroll at all;
   * otherwise the count at the last scroll it makes, which is the scroll
   * before the first repeated count, or the last scroll allowed.
   */
  lemma ScrollResult(counts: nat -> nat, maxScrolls: nat)
    ensures maxScrolls == 0 ==> Scrolled(counts, 0, maxScrolls, 0) == 0
    ensures maxScrolls > 0 ==> Scrolled(counts, 0, maxScrolls, 0) == counts(LastScroll(counts, 1, maxScrolls))
  {
    if maxScrolls > 0 {
      ScrolledFrom(counts, 1, maxScrolls);
    }
  }

  // ---------------------------------------------------------------------------
  // The page loop

  /** What opening one search page gives: a timeout, another failure, or the page's project links. */
  datatype Visit = TimedOut | Failed | Loaded(links: seq<Wantedly.Link>)

  /**
   * The jobs of the pages `search` parses from page `page` on, after the
   * jobs `stream` of the pages before, duplicates and all: a timeout skips
   * the page, any other failure ends the search, and so does a page that
   * adds no job to the deduplicated list.
   */
  function Rounds(visit: nat -> Visit, parse: seq<Wantedly.Link> -> seq<Listing>,
                  page: nat, maxPages: nat, stream: seq<Listing>): seq<Listing>
    decreases maxPages + 1 - page
  {
    if page > maxPages then stream
    else
      match visit(page)
      case TimedOut => Rounds(visit, parse, page + 1, maxPages, stream)
      case Failed => stream
      case Loaded(links) =>
        var s := stream + parse(links);
        if Wantedly.Dedup(s) == Wantedly.Dedup(stream) then s
        else Rounds(visit, parse, page + 1, maxPages, s)
  }

  /** A page adds nothing to the deduplicated jobs exactly when every id on it was seen before. */
  lemma NoNewJobs(stream: seq<Listing>, page: seq<Listing>)
    ensures Wantedly.Dedup(stream + page) == Wantedly.Dedup(stream) <==> Wantedly.Ids(page) <= Wantedly.Ids(stream)
  {
    var before := Wantedly.Dedup(stream);
    var after := Wantedly.Dedup(stream + page);
    Wantedly.IdsAppend(stream, page);
    if Wantedly.Ids(page) <= Wantedly.Ids(stream) {
      assert Wantedly.Ids(after) == Wantedly.Ids(before);
      Wantedly.DedupExtends(stream, page);
      Wantedly.DistinctIdsCount(before);
      Wantedly.DistinctIdsCount(after);
      assert after == after[..|before|];
    } else {
      var id :| id in Wantedly.Ids(page) && id !in Wantedly.Ids(stream);
      assert id in Wantedly.Ids(after) && id !in Wantedly.Ids(before);
    }
  }

  /** Every job the search finds comes from a page it loaded, at most `maxPages`. */
  lemma {:induction false} RoundsFromPages(visit: nat -> Visit, parse: seq<Wantedly.Link> -> seq<Listing>,
                                            page: nat, maxPages: nat, stream: seq<Listing>, j: Listing)
    requires j in Rounds(visit, parse, page, maxPages, stream)
    ensures j in stream || exists p :: page <= p <= maxPages && visit(p).Loaded? && j in parse(visit(p).links)
    decreases maxPages + 1 - page
  {
    if page <= maxPages {
      match visit(page)
      case TimedOut =>
        RoundsFromPages(visit, parse, page + 1, maxPages, stream, j);
      case Failed =>
      case Loaded(links) =>
        var s := stream + parse(links);
        if Wantedly.Dedup(s) != Wantedly.Dedup(stream) {
          RoundsFromPages(visit, parse, page + 1, maxPages, s, j);
        }
    }
  }

  /** One loaded page of the search: it ends the search when it adds no job. */
  lemma RoundsLoaded(visit: nat -> Visit, parse: seq<Wantedly.Link> -> seq<Listing>,
                     page: nat, maxPages: nat, stream: seq<Listing>, links: seq<Wantedly.Link>)
    requires page <= maxPages && visit(page) == Loaded(links)
    ensures Rounds(visit, parse, page, maxPages, stream)
         == if Wantedly.Dedup(stream + parse(links)) == Wantedly.Dedup(stream) then stream + parse(links)
            else Rounds(visit, parse, page + 1, maxPages, stream + parse(links))
  {
  }

  /** Nothing was appended exactly when the list is unchanged. */
  lemma NothingAdded(jobs: seq<Listing>, added: seq<Listing>)
    ensures |added| == 0 <==> jobs + added == jobs
  {
    assert |jobs + added| == |jobs| + |added|;
  }

  /**
   * The loop of `search` over pages 1 to `max_pages`, for any way of opening
   * a page and parsing its links: the jobs whose ids were not seen before.
   */
  method Crawl(visit: nat -> Visit, parse: seq<Wantedly.Link> -> seq<Listing>, max: nat)
    returns (jobs: seq<Listing>)
    ensures jobs == Wantedly.Dedup(Rounds(visit, parse, 1, max, []))
    ensures Wantedly.DistinctIds(jobs)
  {
    jobs := [];
    var seen: set<String> := {};
    ghost var stream: seq<Listing> := [];
    var page: nat := 1;
    while page <= max
      invariant 1 <= page
      invariant Rounds(visit, parse, 1, max, []) == Rounds(visit, parse, page, max, stream)
      invariant jobs == Wantedly.Dedup(stream) && seen == Wantedly.Ids(jobs)
      decreases max + 1 - page
    {
      match visit(page)
      case TimedOut =>
        page := page + 1;
      case Failed =>
        return;
      case Loaded(links) =>
        var pageJobs := parse(links);
        var added;
        added, seen := Wantedly.AddNew(stream, jobs, seen, pageJobs);
        RoundsLoaded(visit, parse, page, max, stream, links);
        NothingAdded(jobs, added);
        stream := stream + pageJobs;
        if |added| == 0 {
          return;
        }
        jobs := jobs + added;
        page := page + 1;
    }
  }

  /** Page `n` of the search: what opening its URL gives. */
  function PageVisitor(keywords: seq<String>, quote: String -> String, visit: String -> Visit): nat -> Visit {
    (n: nat) => visit(BuildSearchUrl(keywords, n, quote))
  }

  /**
   * `search`: the location joins the keywords, then pages 1 to `max_pages`
   * are opened in order and their new jobs kept.
   */
  method Search(keywords: seq<String>, location: Option<String>, maxPages: int,
                quote: String -> String, visit: String -> Visit)
    returns (jobs: seq<Listing>)
    ensures jobs == Wantedly.Dedup(Rounds(PageVisitor(SearchTerms(keywords, location), quote, visit), CardParser(),
                                          1, if maxPages < 1 then 0 else maxPages, []))
    ensures Wantedly.DistinctIds(jobs)
  {
    jobs := Crawl(PageVisitor(SearchTerms(keywords, location), quote, visit), CardParser(),
                  if maxPages < 1 then 0 else maxPages);
  }
}
