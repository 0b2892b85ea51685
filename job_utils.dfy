/**
 * The job table and its maintenance operations: text normalisation, the
 * deduplication fingerprint, duplicate lookup, the staleness sweep, the
 * fingerprint backfill and the status statistics (src/models/job_utils.py).
 */
module JobUtils {
  import opened Wrappers
  import opened Text
  import opened Counting

  /** One row of the `jobs` table. Timestamps are integer seconds. */
  datatype Job = Job(
    id: nat,
    title: String,
    company: String,
    description: Option<String>,
    salaryText: Option<String>,
    salaryMin: Option<int>,
    salaryMax: Option<int>,
    location: Option<String>,
    url: String,
    board: String,
    fingerprint: Option<String>,
    lastSeen: Option<int>,
    isActive: bool)

  /** The `url` column is declared unique. */
  ghost predicate UniqueUrls(rows: seq<Job>) {
    forall i, j :: 0 <= i < j < |rows| ==> rows[i].url != rows[j].url
  }

  /** The `id` column is the primary key. */
  ghost predicate UniqueIds(rows: seq<Job>) {
    forall i, j :: 0 <= i < j < |rows| ==> rows[i].id != rows[j].id
  }

  // ---------------------------------------------------------------------------
  // normalize_text
  // ---------------------------------------------------------------------------

  const Corp: String := "株式会社"

  /** The bracket characters `normalize_text` deletes. */
  const Brackets: set<char> := {'【', '】', '[', ']', '（', '）', '(', ')', '「', '」', '『', '』'}

  /** `re.sub(r"^株式会社\s*", "", s)`. */
  function DropCorpPrefix(s: String): (r: String)
    ensures |r| <= |s|
    ensures !StartsWith(s, Corp) ==> r == s
    ensures IsLowerCase(s) ==> IsLowerCase(r)
    ensures forall i :: 0 <= i < |r| ==> r[i] in s
  {
    if StartsWith(s, Corp) then
      var t := s[|Corp|..];
      var r := t[LeadingSpaces(t)..];
      assert forall i :: 0 <= i < |r| ==> r[i] == s[|Corp| + LeadingSpaces(t) + i];
      r
    else s
  }

  /**
   * `re.sub(r"\s*株式会社$", "", s)`. The text reaching this step has been
   * stripped, so `$` can only match at the very end.
   */
  function DropCorpSuffix(s: String): (r: String)
    ensures |r| <= |s|
    ensures !EndsWith(s, Corp) ==> r == s
    ensures r == s[..|r|]
    ensures IsLowerCase(s) ==> IsLowerCase(r)
  {
    if EndsWith(s, Corp) then
      var t := s[..|s| - |Corp|];
      t[..|t| - TrailingSpaces(t)]
    else s
  }

  /**
   * `normalize_text`: lower-case, strip, collapse whitespace, drop a leading or
   * trailing 株式会社, delete brackets, strip again. None and "" give "".
   */
  function NormalizeText(text: Option<String>): (r: String)
    ensures text.None? || text.value == [] ==> r == []
    ensures IsLowerCase(r)
    ensures IsStripped(r)
    ensures forall i :: 0 <= i < |r| ==> r[i] !in Brackets
  {
    if text.None? || text.value == [] then []
    else
      var e := RemoveChars(DropCorpSuffix(DropCorpPrefix(CollapseSpaces(Strip(Lower(text.value))))), Brackets);
      StripKeepsExcluded(e, Brackets);
      Strip(e)
  }

  /** Stripping keeps out every character its input keeps out. */
  lemma StripKeepsExcluded(s: String, drop: set<char>)
    requires forall i :: 0 <= i < |s| ==> s[i] !in drop
    ensures forall i :: 0 <= i < |Strip(s)| ==> Strip(s)[i] !in drop
  {
    var r := Strip(s);
    forall i | 0 <= i < |r| ensures r[i] !in drop {
      var j :| 0 <= j < |s| && s[j] == r[i];
    }
  }

  /** A company name already in the form `normalize_text` produces, carrying no legal-entity affix. */
  ghost predicate IsBareName(name: String) {
    && IsLowerCase(name) && IsStripped(name) && IsSingleSpaced(name)
    && (forall i :: 0 <= i < |name| ==> name[i] !in Brackets)
    && !StartsWith(name, Corp) && !EndsWith(name, Corp)
  }

  /** Once the affixes are gone and a bare name is left, the remaining steps change nothing. */
  lemma NormalizeFinish(text: String, name: String)
    requires text != [] && IsBareName(name)
    requires DropCorpSuffix(DropCorpPrefix(CollapseSpaces(Strip(Lower(text))))) == name
    ensures NormalizeText(Some(text)) == name
  {
    assert RemoveChars(name, Brackets) == name;
    StripStripped(name);
  }

  /** `normalize_text` leaves a bare name as it is. */
  lemma NormalizeBare(name: String)
    requires IsBareName(name)
    ensures NormalizeText(Some(name)) == name
  {
    if name != [] {
      LowerOfLowerCase(name);
      StripStripped(name);
      CollapseSingleSpaced(name);
      NormalizeFinish(name, name);
    }
  }

  lemma CorpIsBare()
    ensures IsLowerCase(Corp) && IsStripped(Corp) && IsSingleSpaced(Corp)
    ensures forall i :: 0 <= i < |Corp| ==> !IsSpace(Corp[i])
  {
  }

  /** A bare name followed by at most one space cannot start with 株式会社. */
  lemma CorpNotAtFront(name: String, mid: String)
    requires IsBareName(name) && name != [] && (mid == [] || mid == [' '])
    ensures !StartsWith(name + mid + Corp, Corp)
  {
    var s := name + mid + Corp;
    if |name| >= |Corp| {
      assert s[..|Corp|] == name[..|Corp|];
    } else if mid != [] {
      assert s[|name|] == ' ';
      CorpIsBare();
    } else {
      assert s[|name|] == '株';
      assert Corp[|name|] != '株';
    }
  }

  /** A run of whitespace (possibly empty) in front of a non-space collapses to at most one space. */
  lemma CollapseOptionalRun(sp: String, w: String)
    requires AllSpaces(sp) && IsSingleSpaced(w) && (w == [] || !IsSpace(w[0]))
    ensures CollapseSpaces(sp + w) == (if sp == [] then [] else [' ']) + w
  {
    CollapseSingleSpaced(w);
    if sp == [] {
      assert sp + w == w;
    } else {
      CollapseLeadingRun(sp, w);
    }
  }

  lemma LowerCaseConcat(a: String, b: String)
    requires IsLowerCase(a) && IsLowerCase(b)
    ensures IsLowerCase(a + b)
  {
  }

  lemma AllSpacesLowerCase(sp: String)
    requires AllSpaces(sp)
    ensures IsLowerCase(sp)
  {
  }

  /** Lower-casing and stripping leave a lower-case, stripped text as it is. */
  lemma StripLowerPlain(s: String)
    requires IsLowerCase(s) && IsStripped(s)
    ensures Strip(Lower(s)) == s
  {
    LowerOfLowerCase(s);
    StripStripped(s);
  }

  /** 株式会社 between runs of whitespace is already lower case. */
  lemma CorpAloneLower(text: String, left: String, right: String)
    requires AllSpaces(left) && AllSpaces(right) && text == left + Corp + right
    ensures Lower(text) == text
  {
    CorpIsBare();
    AllSpacesLowerCase(left);
    AllSpacesLowerCase(right);
    LowerCaseConcat(left, Corp);
    LowerCaseConcat(left + Corp, right);
    LowerOfLowerCase(text);
  }

  /** Stripping 株式会社 between runs of whitespace leaves 株式会社. */
  lemma CorpAloneStrip(text: String, left: String, right: String)
    requires AllSpaces(left) && AllSpaces(right) && text == left + Corp + right
    ensures Strip(text) == Corp
  {
    CorpIsBare();
    LeadingSpacesOfPadded(left, Corp + right);
    assert text == left + (Corp + right);
    assert text[|left|..] == Corp + right;
    TrailingSpacesOfPadded(Corp, right);
  }

  /** The later steps take 株式会社 alone to the empty name. */
  lemma CorpAloneDropped()
    ensures DropCorpSuffix(DropCorpPrefix(CollapseSpaces(Corp))) == []
  {
    CorpIsBare();
    CollapseSingleSpaced(Corp);
    assert StartsWith(Corp, Corp);
    assert Corp[|Corp|..] == [];
  }

  /** The text 株式会社 alone, with whitespace on either side, normalises to "". */
  lemma NormalizeCorpAlone(text: String, left: String, right: String)
    requires AllSpaces(left) && AllSpaces(right) && text == left + Corp + right
    ensures NormalizeText(Some(text)) == []
  {
    CorpAloneLower(text, left, right);
    CorpAloneStrip(text, left, right);
    var t := Strip(Lower(text));
    assert t == Corp;
    CorpAloneDropped();
    assert DropCorpSuffix(DropCorpPrefix(CollapseSpaces(t))) == [];
    assert |text| == |left| + |Corp| + |right|;
    NormalizeFinish(text, []);
  }

  /** Prefix form after collapsing: 株式会社, at most one space, the name. */
  lemma CollapsePrefixed(name: String, sp: String)
    requires IsBareName(name) && name != [] && AllSpaces(sp)
    ensures CollapseSpaces(Strip(Lower(Corp + sp + name))) == Corp + (if sp == [] then [] else [' ']) + name
  {
    var mid: String := if sp == [] then [] else [' '];
    assert Corp + sp + name == Corp + (sp + name);
    PrefixedIsPlain(name, sp);
    PrefixedCollapses(name, sp);
    assert Corp + (mid + name) == Corp + mid + name;
  }

  lemma PrefixedIsPlain(name: String, sp: String)
    requires IsBareName(name) && name != [] && AllSpaces(sp)
    ensures Strip(Lower(Corp + (sp + name))) == Corp + (sp + name)
  {
    var s := Corp + (sp + name);
    CorpIsBare();
    AllSpacesLowerCase(sp);
    LowerCaseConcat(sp, name);
    LowerCaseConcat(Corp, sp + name);
    assert s[|s| - 1] == name[|name| - 1];
    StripLowerPlain(s);
  }

  lemma PrefixedCollapses(name: String, sp: String)
    requires IsBareName(name) && name != [] && AllSpaces(sp)
    ensures CollapseSpaces(Corp + (sp + name)) == Corp + ((if sp == [] then [] else [' ']) + name)
  {
    CorpIsBare();
    CollapseAfterSingleSpaced(Corp, sp + name);
    CollapseOptionalRun(sp, name);
  }

  /** Suffix form after collapsing: the name, at most one space, 株式会社. */
  lemma CollapseSuffixed(name: String, sp: String)
    requires IsBareName(name) && name != [] && AllSpaces(sp)
    ensures CollapseSpaces(Strip(Lower(name + sp + Corp))) == name + (if sp == [] then [] else [' ']) + Corp
  {
    var mid: String := if sp == [] then [] else [' '];
    assert name + sp + Corp == name + (sp + Corp);
    SuffixedIsPlain(name, sp);
    SuffixedCollapses(name, sp);
    assert name + (mid + Corp) == name + mid + Corp;
  }

  lemma SuffixedIsPlain(name: String, sp: String)
    requires IsBareName(name) && name != [] && AllSpaces(sp)
    ensures Strip(Lower(name + (sp + Corp))) == name + (sp + Corp)
  {
    var s := name + (sp + Corp);
    CorpIsBare();
    AllSpacesLowerCase(sp);
    LowerCaseConcat(sp, Corp);
    LowerCaseConcat(name, sp + Corp);
    assert s[0] == name[0];
    StripLowerPlain(s);
  }

  lemma SuffixedCollapses(name: String, sp: String)
    requires IsBareName(name) && name != [] && AllSpaces(sp)
    ensures CollapseSpaces(name + (sp + Corp)) == name + ((if sp == [] then [] else [' ']) + Corp)
  {
    CorpIsBare();
    CollapseAfterSingleSpaced(name, sp + Corp);
    CollapseOptionalRun(sp, Corp);
  }

  lemma DropPrefixOf(name: String, mid: String)
    requires IsBareName(name) && name != [] && (mid == [] || mid == [' '])
    ensures DropCorpSuffix(DropCorpPrefix(Corp + mid + name)) == name
  {
    var b := Corp + mid + name;
    var t := b[|Corp|..];
    assert t == mid + name;
    LeadingSpacesOfPadded(mid, name);
    assert t[|mid|..] == name;
    assert DropCorpPrefix(b) == name;
  }

  lemma DropSuffixOf(name: String, mid: String)
    requires IsBareName(name) && name != [] && (mid == [] || mid == [' '])
    ensures DropCorpSuffix(DropCorpPrefix(name + mid + Corp)) == name
  {
    var b := name + mid + Corp;
    CorpNotAtFront(name, mid);
    assert b[|b| - |Corp|..] == Corp;
    var t := b[..|b| - |Corp|];
    assert t == name + mid;
    TrailingSpacesOfPadded(name, mid);
    assert t[..|t| - |mid|] == name;
  }

  /**
   * Writing 株式会社 (and any whitespace) in front of a bare company name does
   * not change its normal form.
   */
  lemma NormalizeIgnoresCorpPrefix(name: String, sp: String)
    requires IsBareName(name) && AllSpaces(sp)
    ensures NormalizeText(Some(Corp + sp + name)) == NormalizeText(Some(name)) == name
  {
    NormalizeBare(name);
    if name == [] {
      assert Corp + sp + name == [] + Corp + sp;
      NormalizeCorpAlone(Corp + sp + name, [], sp);
    } else {
      CollapsePrefixed(name, sp);
      DropPrefixOf(name, if sp == [] then [] else [' ']);
      NormalizeFinish(Corp + sp + name, name);
    }
  }

  /**
   * Writing 株式会社 (after any whitespace) behind a bare company name does not
   * change its normal form.
   */
  lemma NormalizeIgnoresCorpSuffix(name: String, sp: String)
    requires IsBareName(name) && AllSpaces(sp)
    ensures NormalizeText(Some(name + sp + Corp)) == NormalizeText(Some(name)) == name
  {
    NormalizeBare(name);
    if name == [] {
      assert name + sp + Corp == sp + Corp + [];
      NormalizeCorpAlone(name + sp + Corp, sp, []);
    } else {
      CollapseSuffixed(name, sp);
      DropSuffixOf(name, if sp == [] then [] else [' ']);
      NormalizeFinish(name + sp + Corp, name);
    }
  }

  // ---------------------------------------------------------------------------
  // generate_fingerprint
  // ---------------------------------------------------------------------------

  /** A SHA-256 hex digest: 64 characters. */
  type Digest = s: String | |s| == 64 witness seq(64, _ => '0')

  /** The hash is a parameter: SHA-256 itself is not part of this model. */
  type Hasher = String -> Digest

  /** The text that is hashed: the normalised title, company and board joined by "|". */
  function FingerprintKey(title: Option<String>, company: Option<String>, board: String): String {
    Join([NormalizeText(title), NormalizeText(company), Strip(Lower(board))], "|")
  }

  /** `generate_fingerprint`: the first 16 characters of the digest of the key. */
  function GenerateFingerprint(h: Hasher, title: Option<String>, company: Option<String>, board: String): (r: String)
    ensures |r| == 16
    ensures r == h(FingerprintKey(title, company, board))[..16]
  {
    h(FingerprintKey(title, company, board))[..16]
  }

  /** Inputs that agree after normalisation get the same fingerprint, whatever the hash. */
  lemma FingerprintDependsOnNormalForm(h: Hasher, t1: Option<String>, c1: Option<String>, b1: String,
                                       t2: Option<String>, c2: Option<String>, b2: String)
    requires NormalizeText(t1) == NormalizeText(t2)
    requires NormalizeText(c1) == NormalizeText(c2)
    requires Strip(Lower(b1)) == Strip(Lower(b2))
    ensures GenerateFingerprint(h, t1, c1, b1) == GenerateFingerprint(h, t2, c2, b2)
  {
  }

  /** The same company spelled with or without a leading 株式会社 is fingerprinted identically. */
  lemma FingerprintIgnoresCorpPrefix(h: Hasher, title: Option<String>, name: String, sp: String, board: String)
    requires IsBareName(name) && AllSpaces(sp)
    ensures GenerateFingerprint(h, title, Some(Corp + sp + name), board)
         == GenerateFingerprint(h, title, Some(name), board)
  {
    NormalizeIgnoresCorpPrefix(name, sp);
  }

  // ---------------------------------------------------------------------------
  // find_duplicate_job
  // ---------------------------------------------------------------------------

  predicate HasUrl(j: Job, url: Option<String>) { url == Some(j.url) }

  predicate HasFingerprint(j: Job, fp: String) { j.fingerprint == Some(fp) }

  /**
   * `find_duplicate_job`: the row with this URL if there is one (a missing URL
   * matches nothing), otherwise the first row with this fingerprint.
   */
  function FindDuplicate(rows: seq<Job>, url: Option<String>, fp: String): (r: Option<nat>)
    ensures r.Some? ==> r.value < |rows|
    ensures (exists i :: 0 <= i < |rows| && HasUrl(rows[i], url)) ==>
              r.Some? && HasUrl(rows[r.value], url)
    ensures (forall i :: 0 <= i < |rows| ==> !HasUrl(rows[i], url)) ==>
              (r.Some? <==> exists i :: 0 <= i < |rows| && HasFingerprint(rows[i], fp))
              && (r.Some? ==> HasFingerprint(rows[r.value], fp)
                              && forall i :: 0 <= i < r.value ==> !HasFingerprint(rows[i], fp))
  {
    var byUrl := FirstIndex(rows, j => HasUrl(j, url));
    if byUrl.Some? then byUrl else FirstIndex(rows, j => HasFingerprint(j, fp))
  }

  /** With unique URLs, the URL match is the one row carrying that URL. */
  lemma FindDuplicateByUrlUnique(rows: seq<Job>, url: String, fp: String, k: nat)
    requires UniqueUrls(rows)
    requires k < |rows| && rows[k].url == url
    ensures FindDuplicate(rows, Some(url), fp) == Some(k)
  {
    assert HasUrl(rows[k], Some(url));
  }

  // ---------------------------------------------------------------------------
  // mark_stale_jobs_inactive
  // ---------------------------------------------------------------------------

  const SecondsPerDay: int := 86400

  /** `if job_board:` — an absent or empty board means no board filter. */
  predicate OnBoard(j: Job, board: Option<String>) {
    board.None? || board.value == [] || j.board == board.value
  }

  /** The rows the sweep's UPDATE selects; a row never seen is never stale. */
  predicate IsStale(j: Job, cutoff: int, board: Option<String>) {
    j.isActive && j.lastSeen.Some? && j.lastSeen.value < cutoff && OnBoard(j, board)
  }

  function StaleCount(rows: seq<Job>, cutoff: int, board: Option<String>): nat {
    CountWhere(rows, j => IsStale(j, cutoff, board))
  }

  /** The table after `UPDATE ... SET is_active = False` on the stale rows. */
  function SweepStale(rows: seq<Job>, cutoff: int, board: Option<String>): (r: seq<Job>)
    ensures |r| == |rows|
    ensures forall i :: 0 <= i < |rows| ==>
              r[i] == (if IsStale(rows[i], cutoff, board) then rows[i].(isActive := false) else rows[i])
  {
    seq(|rows|, i requires 0 <= i < |rows| =>
      if IsStale(rows[i], cutoff, board) then rows[i].(isActive := false) else rows[i])
  }

  /** After a sweep no row is stale, so a second sweep with the same cutoff reports 0. */
  lemma SweepTwiceCountsZero(rows: seq<Job>, cutoff: int, board: Option<String>)
    ensures StaleCount(SweepStale(rows, cutoff, board), cutoff, board) == 0
  {
    var r := SweepStale(rows, cutoff, board);
    assert forall i :: 0 <= i < |r| ==> !IsStale(r[i], cutoff, board);
  }

  function ActiveCount(rows: seq<Job>): nat {
    CountWhere(rows, (j: Job) => j.isActive)
  }

  /** The sweep deactivates exactly the rows it counts. */
  lemma {:induction false} SweepActiveCount(rows: seq<Job>, cutoff: int, board: Option<String>)
    ensures ActiveCount(SweepStale(rows, cutoff, board)) + StaleCount(rows, cutoff, board) == ActiveCount(rows)
    decreases |rows|
  {
    if rows != [] {
      var n := |rows| - 1;
      var r := SweepStale(rows, cutoff, board);
      var x := rows[n];
      assert r[..n] == SweepStale(rows[..n], cutoff, board);
      SweepActiveCount(rows[..n], cutoff, board);
      assert ActiveCount(r) == ActiveCount(r[..n]) + (if r[n].isActive then 1 else 0);
      assert StaleCount(rows, cutoff, board)
          == StaleCount(rows[..n], cutoff, board) + (if IsStale(x, cutoff, board) then 1 else 0);
      assert ActiveCount(rows) == ActiveCount(rows[..n]) + (if x.isActive then 1 else 0);
    }
  }

  // ---------------------------------------------------------------------------
  // backfill_fingerprints
  // ---------------------------------------------------------------------------

  function NullFingerprintCount(rows: seq<Job>): nat {
    CountWhere(rows, (j: Job) => j.fingerprint.None?)
  }

  /** One row after the backfill: a fingerprint computed from its own title, company and board. */
  function BackfillRow(h: Hasher, j: Job): (r: Job)
    ensures r.fingerprint.Some?
    ensures j.fingerprint.Some? ==> r == j
    ensures r == j.(fingerprint := r.fingerprint)
  {
    if j.fingerprint.None? then
      j.(fingerprint := Some(GenerateFingerprint(h, Some(j.title), Some(j.company), j.board)))
    else j
  }

  function Backfill(h: Hasher, rows: seq<Job>): (r: seq<Job>)
    ensures |r| == |rows|
    ensures forall i :: 0 <= i < |rows| ==> r[i] == BackfillRow(h, rows[i])
  {
    seq(|rows|, i requires 0 <= i < |rows| => BackfillRow(h, rows[i]))
  }

  /** Backfilling row `i` of a table backfilled before `i` leaves it backfilled before `i + 1`. */
  lemma BackfillStep(h: Hasher, initial: seq<Job>, rows: seq<Job>, i: nat)
    requires |rows| == |initial| && i < |rows|
    requires forall k :: 0 <= k < i ==> rows[k] == BackfillRow(h, initial[k])
    requires forall k :: i <= k < |rows| ==> rows[k] == initial[k]
    ensures var next := rows[i := BackfillRow(h, rows[i])];
            && (forall k :: 0 <= k < i + 1 ==> next[k] == BackfillRow(h, initial[k]))
            && (forall k :: i + 1 <= k < |next| ==> next[k] == initial[k])
  {
  }

  /** One more row counts one more null fingerprint exactly when that row has none. */
  lemma NullCountSnoc(rows: seq<Job>, i: nat)
    requires i < |rows|
    ensures NullFingerprintCount(rows[..i + 1])
            == NullFingerprintCount(rows[..i]) + (if rows[i].fingerprint.None? then 1 else 0)
  {
    assert rows[..i + 1][..i] == rows[..i];
  }

  /** After the backfill no row lacks a fingerprint. */
  lemma BackfillLeavesNoNull(h: Hasher, rows: seq<Job>)
    ensures NullFingerprintCount(Backfill(h, rows)) == 0
  {
    var r := Backfill(h, rows);
    assert forall i :: 0 <= i < |r| ==> r[i].fingerprint.Some?;
  }

  // ---------------------------------------------------------------------------
  // get_job_stats
  // ---------------------------------------------------------------------------

  datatype BoardStats = BoardStats(active: nat, inactive: nat)

  datatype JobStats = JobStats(total: nat, active: nat, inactive: nat, byBoard: map<String, BoardStats>)

  function BoardCount(rows: seq<Job>, board: String, active: bool): nat {
    CountWhere(rows, (j: Job) => j.board == board && j.isActive == active)
  }

  function BoardRows(rows: seq<Job>, board: String): nat {
    CountWhere(rows, (j: Job) => j.board == board)
  }

  /** A board's active and inactive rows are all of its rows (`is_active` is not nullable). */
  lemma {:induction false} BoardSplit(rows: seq<Job>, board: String)
    ensures BoardCount(rows, board, true) + BoardCount(rows, board, false) == BoardRows(rows, board)
    decreases |rows|
  {
    if rows != [] {
      BoardSplit(rows[..|rows| - 1], board);
    }
  }

  function BoardsOf(rows: seq<Job>): set<String> {
    set i | 0 <= i < |rows| :: rows[i].board
  }

  /** The per-board tally after counting one more row. */
  function Bump(table: map<String, BoardStats>, j: Job): map<String, BoardStats> {
    table[j.board := Counted(table, j)]
  }

  /** The tally of the row's board, counting the row. */
  function Counted(table: map<String, BoardStats>, j: Job): BoardStats {
    var cur := if j.board in table then table[j.board] else BoardStats(0, 0);
    if j.isActive then cur.(active := cur.active + 1) else cur.(inactive := cur.inactive + 1)
  }

  /** The per-board tally of `rows`, row by row, as the GROUP BY loop builds it. */
  function BoardTable(rows: seq<Job>): map<String, BoardStats> {
    if rows == [] then map[] else Bump(BoardTable(rows[..|rows| - 1]), rows[|rows| - 1])
  }

  lemma BoardsOfSnoc(p: seq<Job>, j: Job)
    ensures BoardsOf(p + [j]) == BoardsOf(p) + {j.board}
  {
    var rows := p + [j];
    forall x | x in BoardsOf(rows) ensures x in BoardsOf(p) + {j.board} {
      var k :| 0 <= k < |rows| && rows[k].board == x;
      if k < |p| {
        assert p[k] == rows[k];
      }
    }
    forall x | x in BoardsOf(p) ensures x in BoardsOf(rows) {
      var k :| 0 <= k < |p| && p[k].board == x;
      assert rows[k] == p[k];
    }
    assert rows[|p|] == j;
  }

  /** A board with no row has no rows counted. */
  lemma AbsentBoardCounts(p: seq<Job>, b: String)
    requires b !in BoardsOf(p)
    ensures BoardCount(p, b, true) == 0 && BoardCount(p, b, false) == 0
  {
    forall k | 0 <= k < |p| ensures p[k].board != b {
      assert p[k].board in BoardsOf(p);
    }
  }

  /** The last row adds one to the count of its own board and activity. */
  lemma BoardCountSnoc(rows: seq<Job>, b: String)
    requires rows != []
    ensures var n := |rows| - 1;
            && BoardCount(rows, b, true) == BoardCount(rows[..n], b, true) + (if rows[n].board == b && rows[n].isActive then 1 else 0)
            && BoardCount(rows, b, false) == BoardCount(rows[..n], b, false) + (if rows[n].board == b && !rows[n].isActive then 1 else 0)
  {
  }

  /** The tally holds one entry per board present, with that board's active and inactive counts. */
  lemma {:induction false} BoardTableCounts(rows: seq<Job>)
    ensures BoardTable(rows).Keys == BoardsOf(rows)
    ensures forall b :: b in BoardTable(rows) ==>
              BoardTable(rows)[b].active == BoardCount(rows, b, true)
              && BoardTable(rows)[b].inactive == BoardCount(rows, b, false)
    decreases |rows|
  {
    if rows != [] {
      BoardTableCounts(rows[..|rows| - 1]);
      BoardKeysStep(rows);
      BoardTableStep(rows);
    }
  }

  /** The tally has an entry for the last row's board and keeps the others. */
  lemma BoardKeysStep(rows: seq<Job>)
    requires rows != []
    requires BoardTable(rows[..|rows| - 1]).Keys == BoardsOf(rows[..|rows| - 1])
    ensures BoardTable(rows).Keys == BoardsOf(rows)
  {
    var n := |rows| - 1;
    var p, j := rows[..n], rows[n];
    assert rows == p + [j];
    BoardsOfSnoc(p, j);
  }

  /** The tally of all rows is right when that of all rows but the last is. */
  lemma BoardTableStep(rows: seq<Job>)
    requires rows != []
    requires var p := rows[..|rows| - 1];
             && BoardTable(p).Keys == BoardsOf(p)
             && forall c :: c in BoardTable(p) ==>
                  BoardTable(p)[c].active == BoardCount(p, c, true)
                  && BoardTable(p)[c].inactive == BoardCount(p, c, false)
    ensures forall b :: b in BoardTable(rows) ==>
              BoardTable(rows)[b].active == BoardCount(rows, b, true)
              && BoardTable(rows)[b].inactive == BoardCount(rows, b, false)
  {
    forall b | b in BoardTable(rows)
      ensures BoardTable(rows)[b].active == BoardCount(rows, b, true)
      ensures BoardTable(rows)[b].inactive == BoardCount(rows, b, false)
    {
      BumpCounts(rows, b);
    }
  }

  /** One step of the tally: if the tally of all rows but the last is right, so is the whole one, board by board. */
  lemma BumpCounts(rows: seq<Job>, b: String)
    requires rows != []
    requires var p := rows[..|rows| - 1];
             && BoardTable(p).Keys == BoardsOf(p)
             && forall c :: c in BoardTable(p) ==>
                  BoardTable(p)[c].active == BoardCount(p, c, true)
                  && BoardTable(p)[c].inactive == BoardCount(p, c, false)
    requires b in BoardTable(rows)
    ensures BoardTable(rows)[b].active == BoardCount(rows, b, true)
    ensures BoardTable(rows)[b].inactive == BoardCount(rows, b, false)
  {
    var n := |rows| - 1;
    var p, j := rows[..n], rows[n];
    var t := BoardTable(p);
    assert BoardTable(rows) == Bump(t, j);
    BoardCountSnoc(rows, b);
    if b == j.board {
      if b !in t {
        AbsentBoardCounts(p, b);
      }
      assert Bump(t, j)[b] == Counted(t, j);
    } else {
      assert Bump(t, j)[b] == t[b];
    }
  }

  /** One more row adds to the active count and to the tally of its board. */
  lemma StatsSnoc(rows: seq<Job>, i: nat)
    requires i < |rows|
    ensures BoardTable(rows[..i + 1]) == Bump(BoardTable(rows[..i]), rows[i])
    ensures ActiveCount(rows[..i + 1]) == ActiveCount(rows[..i]) + (if rows[i].isActive then 1 else 0)
  {
    assert rows[..i + 1][..i] == rows[..i];
  }

  /** The whole table, held in memory as a sequence of rows. */
  class JobStore {
    var rows: seq<Job>

    constructor (initial: seq<Job>)
      ensures rows == initial
    {
      rows := initial;
    }

    /** `mark_stale_jobs_inactive`: one UPDATE, returning the number of rows it changed. */
    method MarkStaleInactive(now: int, days: int, board: Option<String>) returns (count: nat)
      modifies this
      ensures rows == SweepStale(old(rows), now - days * SecondsPerDay, board)
      ensures count == StaleCount(old(rows), now - days * SecondsPerDay, board)
    {
      var cutoff := now - days * SecondsPerDay;
      count := StaleCount(rows, cutoff, board);
      rows := SweepStale(rows, cutoff, board);
    }

    /** `backfill_fingerprints`: fill every null fingerprint, returning how many there were. */
    method BackfillFingerprints(h: Hasher) returns (count: nat)
      modifies this
      ensures rows == Backfill(h, old(rows))
      ensures count == NullFingerprintCount(old(rows))
    {
      ghost var initial := rows;
      var i := 0;
      count := 0;
      while i < |rows|
        invariant |rows| == |initial| && 0 <= i <= |rows|
        invariant forall k :: 0 <= k < i ==> rows[k] == BackfillRow(h, initial[k])
        invariant forall k :: i <= k < |rows| ==> rows[k] == initial[k]
        invariant count == NullFingerprintCount(initial[..i])
      {
        var job := rows[i];
        NullCountSnoc(initial, i);
        BackfillStep(h, initial, rows, i);
        if job.fingerprint.None? {
          var fp := GenerateFingerprint(h, Some(job.title), Some(job.company), job.board);
          rows := rows[i := job.(fingerprint := Some(fp))];
          count := count + 1;
        }
        i := i + 1;
      }
      assert initial[..i] == initial;
      assert rows == Backfill(h, initial);
    }

    /**
     * `get_job_stats`: overall and per-board counts of active and inactive
     * rows. The per-board GROUP BY is folded row by row.
     */
    method GetJobStats() returns (stats: JobStats)
      ensures stats.total == |rows| == stats.active + stats.inactive
      ensures stats.active == ActiveCount(rows)
      ensures stats.byBoard == BoardTable(rows)
    {
      var all := rows;
      var active := 0;
      var inactive := 0;
      var byBoard: map<String, BoardStats> := map[];
      var i := 0;
      while i < |all|
        invariant 0 <= i <= |all|
        invariant active == ActiveCount(all[..i])
        invariant active + inactive == i
        invariant byBoard == BoardTable(all[..i])
      {
        var j := all[i];
        StatsSnoc(all, i);
        var cur := if j.board in byBoard then byBoard[j.board] else BoardStats(0, 0);
        if j.isActive {
          active := active + 1;
          cur := cur.(active := cur.active + 1);
        } else {
          inactive := inactive + 1;
          cur := cur.(inactive := cur.inactive + 1);
        }
        assert cur == Counted(byBoard, j);
        byBoard := byBoard[j.board := cur];
        i := i + 1;
      }
      assert all[..i] == all;
      stats := JobStats(i, active, inactive, byBoard);
    }
  }
}
