/**
 * The page loop of the Doda, Indeed and Green `search` methods, and of the
 * Doda browser scraper, which follows a "next" control instead of a URL.
 *
 * Each round fetches the current page; a failed fetch ends the loop; the
 * page's jobs are appended; a page without a next link ends the loop; at most
 * `max_pages` rounds run. Fetching and parsing are a given function `load`
 * from a position (a URL, or the number of clicks so far) and the 0-based
 * round number to the parsed page, `None` standing for a failed fetch.
 */
module Paging {
  import opened Wrappers

  /** A parsed results page: its jobs and the position of the next page, if any. */
  datatype Page<S, T> = Page(jobs: seq<T>, next: Option<S>)

  /** One round of the loop: where it fetched and what it got. */
  datatype Visit<S, T> = Visit(at: S, outcome: Option<Page<S, T>>)

  /**
   * The rounds the loop runs from position `at`, round `k`, with `left`
   * rounds still allowed.
   */
  function Trace<S, T>(load: (S, nat) -> Option<Page<S, T>>, at: S, k: nat, left: nat): (r: seq<Visit<S, T>>)
    ensures |r| <= left
    decreases left
  {
    if left == 0 then []
    else
      var v := load(at, k);
      if v.Some? && v.value.next.Some? && left > 1 then
        [Visit(at, v)] + Trace(load, v.value.next.value, k + 1, left - 1)
      else [Visit(at, v)]
  }

  /**
   * What the loop does, round by round: it starts at the first position,
   * round `i` fetches what round `i - 1`'s next link named, every round but
   * the last found a page with a next link, and when fewer rounds ran than
   * allowed the last fetch failed or its page had no next link.
   */
  lemma {:induction false} TraceShape<S, T>(load: (S, nat) -> Option<Page<S, T>>, at: S, k: nat, left: nat)
    ensures var r := Trace(load, at, k, left);
            && (left > 0 ==> |r| > 0 && r[0].at == at)
            && (forall i :: 0 <= i < |r| ==> r[i].outcome == load(r[i].at, k + i))
            && (forall i :: 0 <= i < |r| - 1 ==>
                  r[i].outcome.Some? && r[i].outcome.value.next == Some(r[i + 1].at))
            && (0 < |r| < left ==> r[|r| - 1].outcome.None? || r[|r| - 1].outcome.value.next.None?)
    decreases left
  {
    if left > 0 {
      var v := load(at, k);
      if v.Some? && v.value.next.Some? && left > 1 {
        TraceShape(load, v.value.next.value, k + 1, left - 1);
      }
    }
  }

  /** The jobs of the pages fetched, in page order. */
  function AllJobs<S, T>(visits: seq<Visit<S, T>>): seq<T> {
    if visits == [] then []
    else
      var last := visits[|visits| - 1];
      AllJobs(visits[..|visits| - 1]) + (if last.outcome.Some? then last.outcome.value.jobs else [])
  }

  /** Collecting jobs distributes over consecutive stretches of rounds: page order is kept. */
  lemma {:induction false} AllJobsAppend<S, T>(a: seq<Visit<S, T>>, b: seq<Visit<S, T>>)
    ensures AllJobs(a + b) == AllJobs(a) + AllJobs(b)
    decreases |b|
  {
    if b == [] {
      assert a + b == a;
    } else {
      assert (a + b)[..|a + b| - 1] == a + b[..|b| - 1];
      AllJobsAppend(a, b[..|b| - 1]);
    }
  }

  /** A page's jobs appear in the result, in order, right after those of the pages before it. */
  lemma PageJobsInOrder<S, T>(visits: seq<Visit<S, T>>, i: nat)
    requires i < |visits| && visits[i].outcome.Some?
    ensures AllJobs(visits) == AllJobs(visits[..i]) + visits[i].outcome.value.jobs + AllJobs(visits[i + 1..])
  {
    assert visits == visits[..i + 1] + visits[i + 1..];
    AllJobsAppend(visits[..i + 1], visits[i + 1..]);
    assert visits[..i + 1][..i] == visits[..i];
  }

  /** One round of `Trace`: the visit, then the rest when the page has a next link and rounds remain. */
  lemma TraceStep<S, T>(load: (S, nat) -> Option<Page<S, T>>, at: S, k: nat, left: nat)
    requires left > 0
    ensures var v := load(at, k);
            Trace(load, at, k, left)
            == [Visit(at, v)] + (if v.Some? && v.value.next.Some? && left > 1
                                 then Trace(load, v.value.next.value, k + 1, left - 1) else [])
  {
  }

  /** Collecting the jobs of one more round. */
  lemma AllJobsSnoc<S, T>(visits: seq<Visit<S, T>>, x: Visit<S, T>)
    ensures AllJobs(visits + [x]) == AllJobs(visits) + (if x.outcome.Some? then x.outcome.value.jobs else [])
  {
    assert (visits + [x])[..|visits|] == visits;
  }

  /** The rounds still to come after `done`, once one more has run. */
  lemma TraceAdvance<S, T>(load: (S, nat) -> Option<Page<S, T>>, whole: seq<Visit<S, T>>,
                           done: seq<Visit<S, T>>, at: S, k: nat, left: nat)
    requires left > 0 && whole == done + Trace(load, at, k, left)
    ensures var v := load(at, k);
            if v.Some? && v.value.next.Some? && left > 1
            then whole == (done + [Visit(at, v)]) + Trace(load, v.value.next.value, k + 1, left - 1)
            else whole == done + [Visit(at, v)]
  {
    var v := load(at, k);
    TraceStep(load, at, k, left);
    if v.Some? && v.value.next.Some? && left > 1 {
      var rest := Trace(load, v.value.next.value, k + 1, left - 1);
      assert done + ([Visit(at, v)] + rest) == (done + [Visit(at, v)]) + rest;
    } else {
      assert Trace(load, at, k, left) == [Visit(at, v)];
    }
  }

  /** A loader that fetches by position alone, whatever the round: `pages(at)` is None when the fetch fails. */
  function ByPosition<S, T>(pages: S -> Option<Page<S, T>>): (S, nat) -> Option<Page<S, T>> {
    (at: S, round: nat) => pages(at)
  }

  /**
   * The loop itself: `all_jobs` is extended page by page and `url` moves to
   * the next link. Returns the jobs and the rounds it ran.
   */
  method Search<S, T>(load: (S, nat) -> Option<Page<S, T>>, start: S, maxPages: int)
    returns (jobs: seq<T>, ghost visits: seq<Visit<S, T>>)
    ensures visits == Trace(load, start, 0, if maxPages < 0 then 0 else maxPages)
    ensures jobs == AllJobs(Trace(load, start, 0, if maxPages < 0 then 0 else maxPages))
  {
    var total: nat := if maxPages < 0 then 0 else maxPages;
    ghost var whole := Trace(load, start, 0, total);
    jobs := [];
    visits := [];
    var at := start;
    var k: nat := 0;
    while k < total
      invariant k <= total
      invariant whole == visits + Trace(load, at, k, total - k)
      invariant jobs == AllJobs(visits)
      decreases total - k
    {
      var v := load(at, k);
      TraceAdvance(load, whole, visits, at, k, total - k);
      AllJobsSnoc(visits, Visit(at, v));
      visits := visits + [Visit(at, v)];
      if v.None? {
        return;
      }
      jobs := jobs + v.value.jobs;
      if v.value.next.None? || k + 1 == total {
        return;
      }
      at := v.value.next.value;
      k := k + 1;
    }
  }
}
