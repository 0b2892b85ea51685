/**
 * The Green scraper (src/scrapers/green.py). Green's result cards have no
 * stable class names, so the scraper reads a card as lines of text and picks
 * the company, title, location and salary lines by rules of thumb; the salary
 * text is read with two patterns, a range and a single figure.
 *
 * A card is given as the `href` of its first job link and its text joined by
 * newlines; a results page as its cards and the `href`s of its links.
 */
module Green {
  import opened Wrappers
  import opened Text
  import opened Counting
  import opened Listing
  import SalaryScan
  import Paging
  import PathIds

  const Board: String := "green"
  const BaseUrl: String := "https://www.green-japan.com"
  const SearchUrl: String := "https://www.green-japan.com/search_key"

  // ---------------------------------------------------------------------------
  // Salary text

  /** The range separators `[〜~～ー－-]`. */
  predicate IsSeparator(c: char) {
    c == '〜' || c == '~' || c == '～' || c == 'ー' || c == '－' || c == '-'
  }

  /**
   * `(\d{3,})` at `p`: where the digit run starting there ends, when it has at
   * least three digits. Backtracking to a shorter run never helps, since what
   * follows a figure in both patterns is never a digit.
   */
  function FigureAt(s: String, p: nat): (r: Option<nat>)
    requires p <= |s|
    ensures r.Some? ==> p + 3 <= r.value <= |s| && AllDigits(s[p..r.value])
    ensures r.Some? ==> r.value == |s| || !IsDigit(s[r.value])
    ensures p + 3 <= |s| && IsDigit(s[p]) && IsDigit(s[p + 1]) && IsDigit(s[p + 2]) ==> r.Some?
    ensures p < |s| && !IsDigit(s[p]) ==> r.None?
  {
    var e := SalaryScan.DigitRunEnd(s, p);
    if e >= p + 3 then
      assert AllDigits(s[p..e]) by {
        forall i | 0 <= i < e - p ensures IsDigit(s[p..e][i]) {
          assert s[p..e][i] == s[p + i];
        }
      }
      Some(e)
    else None
  }

  /** `\s*万` from `e`: the position just after the 万. */
  function ManAfter(s: String, e: nat): (r: Option<nat>)
    requires e <= |s|
    ensures r.Some? ==> e < r.value <= |s| && s[r.value - 1] == '万'
    ensures r.Some? ==> forall i :: e <= i < r.value - 1 ==> IsSpace(s[i])
  {
    var w := SpaceRunEnd(s, e);
    if w < |s| && s[w] == '万' then Some(w + 1) else None
  }

  /** `円?\s*[〜~～ー－-]\s*` from `m`: where the second figure must start. */
  function SeparatorAfter(s: String, m: nat): (r: Option<nat>)
    requires m <= |s|
    ensures r.Some? ==> m < r.value <= |s| && exists w :: m <= w < r.value && IsSeparator(s[w])
  {
    var u := if m < |s| && s[m] == '円' then m + 1 else m;
    var w := SpaceRunEnd(s, u);
    if w == |s| || !IsSeparator(s[w]) then None else Some(SpaceRunEnd(s, w + 1))
  }

  /**
   * `SALARY_PATTERN` matched exactly at `p`:
   * `(\d{3,})\s*万円?\s*[〜~～ー－-]\s*(\d{3,})\s*万円?`. The result is the end of
   * the first figure and the start and end of the second.
   */
  function RangeAt(s: String, p: nat): (r: Option<(nat, nat, nat)>)
    requires p <= |s|
    ensures r.Some? ==> p < r.value.0 < r.value.1 < r.value.2 <= |s|
    ensures r.Some? ==> AllDigits(s[p..r.value.0]) && AllDigits(s[r.value.1..r.value.2])
  {
    match FigureAt(s, p)
    case None => None
    case Some(e1) =>
      match ManAfter(s, e1)
      case None => None
      case Some(m) =>
        match SeparatorAfter(s, m)
        case None => None
        case Some(b) =>
          match FigureAt(s, b)
          case None => None
          case Some(e2) => if ManAfter(s, e2).None? then None else Some((e1, b, e2))
  }

  /** `SALARY_SINGLE_PATTERN` matched exactly at `p`: `(\d{3,})\s*万円`; the end of the figure. */
  function SingleAt(s: String, p: nat): (r: Option<nat>)
    requires p <= |s|
    ensures r.Some? ==> FigureAt(s, p) == r && At(s, SpaceRunEnd(s, r.value), "万円")
  {
    match FigureAt(s, p)
    case None => None
    case Some(e) => if At(s, SpaceRunEnd(s, e), "万円") then Some(e) else None
  }

  /** `SALARY_PATTERN.search` from `p`: where the leftmost range starts. */
  function FindRange(s: String, p: nat): (r: Option<nat>)
    requires p <= |s|
    ensures r.Some? ==> p <= r.value <= |s| && RangeAt(s, r.value).Some?
    ensures r.Some? ==> forall q :: p <= q < r.value ==> RangeAt(s, q).None?
    ensures r.None? <==> forall q :: p <= q <= |s| ==> RangeAt(s, q).None?
    decreases |s| - p
  {
    if RangeAt(s, p).Some? then Some(p)
    else if p == |s| then None
    else
      var r := FindRange(s, p + 1);
      RangeScanStep(s, p, if r.Some? then r.value else p + 1);
      r
  }

  /** With no range at `p`, having none from `p` is having none from `p + 1`, to the end or before `e`. */
  lemma RangeScanStep(s: String, p: nat, e: nat)
    requires p < |s| && RangeAt(s, p).None? && p + 1 <= e <= |s|
    ensures (forall q :: p <= q <= |s| ==> RangeAt(s, q).None?) <==> (forall q :: p + 1 <= q <= |s| ==> RangeAt(s, q).None?)
    ensures (forall q :: p <= q < e ==> RangeAt(s, q).None?) <==> (forall q :: p + 1 <= q < e ==> RangeAt(s, q).None?)
  {
  }

  /** `SALARY_SINGLE_PATTERN.search` from `p`: where the leftmost single figure starts. */
  function FindSingle(s: String, p: nat): (r: Option<nat>)
    requires p <= |s|
    ensures r.Some? ==> p <= r.value <= |s| && SingleAt(s, r.value).Some?
    ensures r.Some? ==> forall q :: p <= q < r.value ==> SingleAt(s, q).None?
    ensures r.None? <==> forall q :: p <= q <= |s| ==> SingleAt(s, q).None?
    decreases |s| - p
  {
    if SingleAt(s, p).Some? then Some(p)
    else if p == |s| then None
    else
      var r := FindSingle(s, p + 1);
      SingleScanStep(s, p, if r.Some? then r.value else p + 1);
      r
  }

  /** With no single figure at `p`, having none from `p` is having none from `p + 1`, to the end or before `e`. */
  lemma SingleScanStep(s: String, p: nat, e: nat)
    requires p < |s| && SingleAt(s, p).None? && p + 1 <= e <= |s|
    ensures (forall q :: p <= q <= |s| ==> SingleAt(s, q).None?) <==> (forall q :: p + 1 <= q <= |s| ==> SingleAt(s, q).None?)
    ensures (forall q :: p <= q < e ==> SingleAt(s, q).None?) <==> (forall q :: p + 1 <= q < e ==> SingleAt(s, q).None?)
  {
  }

  /** `int(group) * 10000`: a figure in 万円, in yen. */
  function Yen(s: String, p: nat, e: nat): (v: nat)
    requires p <= e <= |s| && AllDigits(s[p..e])
    ensures v % 10000 == 0
  {
    DecimalValue(s[p..e]) * 10000
  }

  /**
   * `_parse_salary`: None for a missing or empty text; the two figures of the
   * leftmost range, in the order written; failing that, the leftmost single
   * figure twice; failing that, None.
   */
  function ParseSalary(text: Option<String>): (r: Option<(int, int)>)
    ensures text.None? || text.value == [] ==> r.None?
    ensures text.Some? && text.value != [] ==>
              (r.None? <==> FindRange(text.value, 0).None? && FindSingle(text.value, 0).None?)
    ensures r.Some? && FindRange(text.value, 0).None? ==> r.value.0 == r.value.1
    ensures r.Some? ==> r.value.0 >= 0 && r.value.0 % 10000 == 0 && r.value.1 >= 0 && r.value.1 % 10000 == 0
  {
    if text.None? || text.value == [] then None
    else
      var s := text.value;
      match FindRange(s, 0)
      case Some(p) =>
        var (e1, b, e2) := RangeAt(s, p).value;
        Some((Yen(s, p, e1), Yen(s, b, e2)))
      case None =>
        match FindSingle(s, 0)
        case Some(p) => var v := Yen(s, p, SingleAt(s, p).value); Some((v, v))
        case None => None
  }

  /** A range needs a separator character somewhere in the text. */
  lemma RangeNeedsSeparator(s: String)
    requires forall i :: 0 <= i < |s| ==> !IsSeparator(s[i])
    ensures FindRange(s, 0).None?
  {
    forall q | 0 <= q <= |s| ensures RangeAt(s, q).None? {
      if RangeAt(s, q).Some? {
        RangeHasSeparator(s, q);
        assert false;
      }
    }
  }

  /** A range has a separator character between its two figures. */
  lemma RangeHasSeparator(s: String, p: nat)
    requires p <= |s| && RangeAt(s, p).Some?
    ensures exists w :: RangeAt(s, p).value.0 < w < RangeAt(s, p).value.1 && IsSeparator(s[w])
  {
  }

  /**
   * `s` starts with a range written plainly: `n` digits, 万円, a separator,
   * `m` digits and 万.
   */
  predicate RangeLayout(s: String, n: nat, m: nat) {
    && 3 <= n && 3 <= m && n + 3 + m < |s|
    && AllDigits(s[0..n])
    && s[n] == '万' && s[n + 1] == '円' && IsSeparator(s[n + 2])
    && AllDigits(s[n + 3..n + 3 + m])
    && s[n + 3 + m] == '万'
  }

  lemma RangeLayoutFirst(s: String, n: nat, m: nat)
    requires RangeLayout(s, n, m)
    ensures FigureAt(s, 0) == Some(n) && ManAfter(s, n) == Some(n + 1)
  {
    SalaryScan.DigitRunEndAt(s, 0, n);
    assert SpaceRunEnd(s, n) == n;
  }

  lemma RangeLayoutSeparator(s: String, n: nat, m: nat)
    requires RangeLayout(s, n, m)
    ensures SeparatorAfter(s, n + 1) == Some(n + 3)
  {
    assert SpaceRunEnd(s, n + 2) == n + 2;
    assert SpaceRunEnd(s, n + 3) == n + 3;
  }

  lemma RangeLayoutSecond(s: String, n: nat, m: nat)
    requires RangeLayout(s, n, m)
    ensures FigureAt(s, n + 3) == Some(n + 3 + m) && ManAfter(s, n + 3 + m).Some?
  {
    SalaryScan.DigitRunEndAt(s, n + 3, n + 3 + m);
    assert SpaceRunEnd(s, n + 3 + m) == n + 3 + m;
  }

  /** `RangeAt` is its four stages in sequence. */
  lemma RangeStages(s: String, p: nat, e1: nat, m: nat, b: nat, e2: nat)
    requires p <= |s|
    requires FigureAt(s, p) == Some(e1) && ManAfter(s, e1) == Some(m)
    requires SeparatorAfter(s, m) == Some(b) && FigureAt(s, b) == Some(e2) && ManAfter(s, e2).Some?
    ensures RangeAt(s, p) == Some((e1, b, e2))
  {
  }

  lemma RangeLayoutAt(s: String, n: nat, m: nat)
    requires RangeLayout(s, n, m)
    ensures RangeAt(s, 0) == Some((n, n + 3, n + 3 + m))
  {
    RangeLayoutFirst(s, n, m);
    RangeLayoutSeparator(s, n, m);
    RangeLayoutSecond(s, n, m);
    RangeStages(s, 0, n, n + 1, n + 3, n + 3 + m);
  }

  /** A text with a range at its very start yields that range's figures. */
  lemma RangeFirst(s: String, e1: nat, b: nat, e2: nat)
    requires s != [] && RangeAt(s, 0) == Some((e1, b, e2))
    ensures ParseSalary(Some(s)) == Some((Yen(s, 0, e1), Yen(s, b, e2)))
  {
    RangeFound(s, 0);
  }

  /** The leftmost range is read, wherever it stands, with its two figures in the order written. */
  lemma RangeLeftmost(s: String, p: nat, e1: nat, b: nat, e2: nat)
    requires p <= |s| && RangeAt(s, p) == Some((e1, b, e2))
    requires forall q :: 0 <= q < p ==> RangeAt(s, q).None?
    ensures ParseSalary(Some(s)) == Some((Yen(s, p, e1), Yen(s, b, e2)))
  {
    RangeFound(s, p);
  }

  lemma RangeFound(s: String, p: nat)
    requires p <= |s| && RangeAt(s, p).Some?
    requires forall q :: 0 <= q < p ==> RangeAt(s, q).None?
    ensures FindRange(s, 0) == Some(p)
  {
    var r := FindRange(s, 0);
    assert r.Some? by { assert RangeAt(s, p).Some?; }
    assert r.value <= p by { assert RangeAt(s, p).Some?; }
    assert r.value >= p by { assert RangeAt(s, r.value).Some?; }
  }

  /** In a text with no range, the leftmost single figure is read as both ends. */
  lemma SingleLeftmost(s: String, p: nat, e: nat)
    requires forall q :: 0 <= q <= |s| ==> RangeAt(s, q).None?
    requires p <= |s| && SingleAt(s, p) == Some(e)
    requires forall q :: 0 <= q < p ==> SingleAt(s, q).None?
    ensures ParseSalary(Some(s)) == Some((Yen(s, p, e), Yen(s, p, e)))
  {
    NoRangeFound(s);
    SingleFound(s, p);
  }

  lemma NoRangeFound(s: String)
    requires forall q :: 0 <= q <= |s| ==> RangeAt(s, q).None?
    ensures FindRange(s, 0).None?
  {
  }

  lemma SingleFound(s: String, p: nat)
    requires p <= |s| && SingleAt(s, p).Some?
    requires forall q :: 0 <= q < p ==> SingleAt(s, q).None?
    ensures FindSingle(s, 0) == Some(p)
  {
    var r := FindSingle(s, 0);
    assert r.Some? by { assert SingleAt(s, p).Some?; }
    assert r.value <= p by { assert SingleAt(s, p).Some?; }
    assert r.value >= p by { assert SingleAt(s, r.value).Some?; }
  }

  /**
   * A text that starts with a plainly written range is read there, with the
   * figures in the order written, whatever follows.
   */
  lemma RangeOfLayout(s: String, n: nat, m: nat)
    requires RangeLayout(s, n, m)
    ensures RangeAt(s, 0) == Some((n, n + 3, n + 3 + m))
    ensures ParseSalary(Some(s)) == Some((Yen(s, 0, n), Yen(s, n + 3, n + 3 + m)))
  {
    RangeLayoutAt(s, n, m);
    RangeFirst(s, n, n + 3, n + 3 + m);
  }

  /** `s` starts with a single figure written plainly, `n` digits and 万円, and holds no separator. */
  predicate SingleLayout(s: String, n: nat) {
    && 3 <= n && n + 2 <= |s|
    && AllDigits(s[0..n])
    && s[n] == '万' && s[n + 1] == '円'
    && (forall i :: 0 <= i < |s| ==> !IsSeparator(s[i]))
  }

  /** Without a separator there is no range, and a plainly written single figure is read as both ends. */
  lemma SingleOfLayout(s: String, n: nat)
    requires SingleLayout(s, n)
    ensures AllDigits(s[0..n])
    ensures ParseSalary(Some(s)) == Some((DecimalValue(s[0..n]) * 10000, DecimalValue(s[0..n]) * 10000))
  {
    RangeNeedsSeparator(s);
    SingleLayoutAt(s, n);
    SingleFound(s, 0);
  }

  lemma SingleLayoutAt(s: String, n: nat)
    requires SingleLayout(s, n)
    ensures AllDigits(s[0..n]) && SingleAt(s, 0) == Some(n)
  {
    SalaryScan.DigitRunEndAt(s, 0, n);
    assert SpaceRunEnd(s, n) == n;
    assert s[n..n + 2] == "万円";
  }

  lemma FourHundred()
    ensures AllDigits("400") && DecimalValue("400") == 400
  {
    assert "4"[..0] == [];
    assert DecimalValue("4") == 4;
    DecimalSnoc("4", '0');
    assert "4" + ['0'] == "40";
    DecimalSnoc("40", '0');
    assert "40" + ['0'] == "400";
  }

  lemma SixHundred()
    ensures AllDigits("600") && DecimalValue("600") == 600
  {
    assert "6"[..0] == [];
    assert DecimalValue("6") == 6;
    DecimalSnoc("6", '0');
    assert "6" + ['0'] == "60";
    DecimalSnoc("60", '0');
    assert "60" + ['0'] == "600";
  }

  lemma AscendingLayout()
    ensures RangeLayout("400万円〜600万円", 3, 3)
  {
  }

  lemma AscendingFigures()
    ensures AllDigits("400万円〜600万円"[0..3]) && AllDigits("400万円〜600万円"[6..9])
    ensures Yen("400万円〜600万円", 0, 3) == 4000000 && Yen("400万円〜600万円", 6, 9) == 6000000
  {
    assert "400万円〜600万円"[0..3] == "400" && "400万円〜600万円"[6..9] == "600";
    FourHundred();
    SixHundred();
  }

  /** The docstring's example "400万円〜600万円". */
  lemma RangeExample()
    ensures ParseSalary(Some("400万円〜600万円")) == Some((4000000, 6000000))
  {
    AscendingLayout();
    RangeOfLayout("400万円〜600万円", 3, 3);
    AscendingFigures();
  }

  lemma DescendingLayout()
    ensures RangeLayout("600万円〜400万円", 3, 3)
  {
  }

  lemma DescendingFigures()
    ensures AllDigits("600万円〜400万円"[0..3]) && AllDigits("600万円〜400万円"[6..9])
    ensures Yen("600万円〜400万円", 0, 3) == 6000000 && Yen("600万円〜400万円", 6, 9) == 4000000
  {
    assert "600万円〜400万円"[0..3] == "600" && "600万円〜400万円"[6..9] == "400";
    FourHundred();
    SixHundred();
  }

  /** A range written from high to low stays in that order: the first value exceeds the second. */
  lemma DescendingRangeExample()
    ensures ParseSalary(Some("600万円〜400万円")) == Some((6000000, 4000000))
  {
    DescendingLayout();
    RangeOfLayout("600万円〜400万円", 3, 3);
    DescendingFigures();
  }

  /** The single-figure example "400万円". */
  lemma SingleExample()
    ensures ParseSalary(Some("400万円")) == Some((4000000, 4000000))
  {
    SingleExampleLayout();
    SingleOfLayout("400万円", 3);
    SingleExampleFigure();
  }

  lemma SingleExampleLayout()
    ensures SingleLayout("400万円", 3)
  {
  }

  lemma SingleExampleFigure()
    ensures AllDigits("400万円"[0..3]) && DecimalValue("400万円"[0..3]) == 400
  {
    assert "400万円"[0..3] == "400";
    FourHundred();
  }

  // ---------------------------------------------------------------------------
  // Lines of a card

  /** A piece of the card text, stripped, or None when only whitespace. */
  function StrippedLine(piece: String): Option<String> {
    var t := Strip(piece);
    if t == [] then None else Some(t)
  }

  /** `_extract_text_lines`: the card text split at newlines, each piece stripped, empty ones dropped. */
  function ExtractTextLines(text: String): (lines: seq<String>)
    ensures forall i :: 0 <= i < |lines| ==> lines[i] != [] && IsStripped(lines[i])
  {
    Collect(Split(text, '\n'), StrippedLine)
  }

  /**
   * Lines come in the order of the text: the line of the text before the first
   * newline, when it is not blank, is followed by the lines of the rest.
   */
  lemma LinesInOrder(first: String, rest: String)
    requires '\n' !in first
    ensures ExtractTextLines(first + "\n" + rest)
            == (if Strip(first) == [] then [] else [Strip(first)]) + ExtractTextLines(rest)
    ensures ExtractTextLines(first) == if Strip(first) == [] then [] else [Strip(first)]
  {
    SplitCons(first, '\n', rest);
    CollectAppend([first], Split(rest, '\n'), StrippedLine);
    CollectOne(first, StrippedLine);
  }

  /** Every line is the stripped form of one piece of the text between newlines. */
  lemma LinesArePieces(text: String, i: nat)
    requires i < |ExtractTextLines(text)|
    ensures exists j :: 0 <= j < |Split(text, '\n')| && ExtractTextLines(text)[i] == Strip(Split(text, '\n')[j])
  {
    var pieces := Split(text, '\n');
    var lines := ExtractTextLines(text);
    assert lines == Collect(pieces, StrippedLine);
    StrippedPieces(pieces);
    var j :| 0 <= j < |pieces| && Collect(pieces, StrippedLine)[i] == Strip(pieces[j]);
  }

  lemma StrippedPieces(pieces: seq<String>)
    ensures var lines := Collect(pieces, StrippedLine);
            forall i :: 0 <= i < |lines| ==> exists j :: 0 <= j < |pieces| && lines[i] == Strip(pieces[j])
  {
    var lines := Collect(pieces, StrippedLine);
    forall i | 0 <= i < |lines| ensures exists j :: 0 <= j < |pieces| && lines[i] == Strip(pieces[j]) {
      var j :| 0 <= j < |pieces| && StrippedLine(pieces[j]) == Some(lines[i]);
      assert lines[i] == Strip(pieces[j]);
    }
  }

  /** No line holds a newline. */
  lemma LinesHaveNoNewline(text: String, i: nat)
    requires i < |ExtractTextLines(text)|
    ensures '\n' !in ExtractTextLines(text)[i]
  {
    var pieces := Split(text, '\n');
    LinesArePieces(text, i);
    var j :| 0 <= j < |pieces| && ExtractTextLines(text)[i] == Strip(pieces[j]);
    assert '\n' !in pieces[j];
  }

  /** No non-blank piece of the text is lost: its stripped form is a line. */
  lemma PiecesAreLines(text: String)
    ensures var lines := ExtractTextLines(text);
            var pieces := Split(text, '\n');
            forall j :: 0 <= j < |pieces| && Strip(pieces[j]) != [] ==> Strip(pieces[j]) in lines
  {
    var pieces := Split(text, '\n');
    forall j | 0 <= j < |pieces| && Strip(pieces[j]) != [] ensures StrippedLine(pieces[j]).Some? {
    }
  }

  /** `^\d+人?$`: an employee count. */
  predicate EmployeeCount(line: String) {
    (|line| > 0 && AllDigits(line))
    || (|line| > 1 && line[|line| - 1] == '人' && AllDigits(line[..|line| - 1]))
  }

  /** `^\d{4}年`: a founding year. */
  predicate FoundedYear(line: String) {
    |line| >= 5 && AllDigits(line[..4]) && line[4] == '年'
  }

  /** The lines `_find_company` passes over: short lines, badges, employee counts and years. */
  predicate SkippedLine(line: String) {
    |line| < 3 || line in ["New", "NEW", "急募", "PR"] || EmployeeCount(line) || FoundedYear(line)
  }

  /** A line `_find_company` takes: not skipped, and naming a company or longer than five characters. */
  predicate CompanyLike(line: String) {
    !SkippedLine(line) && (Contains(line, "株式会社") || Contains(line, "会社") || |line| > 5)
  }

  /** `_find_company`: the first company-like line among the first five, else the first line, else None. */
  function FindCompany(lines: seq<String>): (r: Option<String>)
    ensures r.None? <==> lines == []
    ensures r.Some? && CompanyLike(r.value) ==>
              exists k :: 0 <= k < |lines| && k < 5 && lines[k] == r.value
                          && forall i :: 0 <= i < k ==> !CompanyLike(lines[i])
    ensures r.Some? && !CompanyLike(r.value) ==>
              r.value == lines[0] && forall i :: 0 <= i < |lines| && i < 5 ==> !CompanyLike(lines[i])
  {
    var head := if |lines| <= 5 then lines else lines[..5];
    match FirstWhere(head, CompanyLike)
    case Some(line) => Some(line)
    case None => if lines == [] then None else Some(lines[0])
  }

  /** A badge, an employee count or a year is returned only as the first-line fallback. */
  lemma CompanyNeverSkipped(lines: seq<String>)
    requires FindCompany(lines).Some? && SkippedLine(FindCompany(lines).value)
    ensures FindCompany(lines).value == lines[0]
  {
  }

  const JobKeywords: seq<String> :=
    ["デザイナー", "エンジニア", "マネージャー", "ディレクター", "募集", "開発", "担当", "リーダー", "スペシャリスト"]

  /** A line `_find_title` takes at once: at least 15 characters and a job keyword. */
  predicate TitleLike(line: String) {
    |line| >= 15 && exists i :: 0 <= i < |JobKeywords| && Contains(line, JobKeywords[i])
  }

  /** `max(lines, key=len)`: the index of the first of the longest lines. */
  function LongestIndex(lines: seq<String>): (k: nat)
    requires |lines| > 0
    ensures k < |lines|
    ensures forall i :: 0 <= i < |lines| ==> |lines[i]| <= |lines[k]|
    ensures forall i :: 0 <= i < k ==> |lines[i]| < |lines[k]|
  {
    if |lines| == 1 then 0
    else
      var k := LongestIndex(lines[..|lines| - 1]);
      assert forall i :: 0 <= i < |lines| - 1 ==> lines[..|lines| - 1][i] == lines[i];
      if |lines[|lines| - 1]| > |lines[k]| then |lines| - 1 else k
  }

  /** `_find_title`: the first title-like line, else the first longest line, else None. */
  function FindTitle(lines: seq<String>): (r: Option<String>)
    ensures r.None? <==> lines == []
    ensures r.Some? && TitleLike(r.value) ==>
              exists k :: 0 <= k < |lines| && lines[k] == r.value && forall i :: 0 <= i < k ==> !TitleLike(lines[i])
    ensures r.Some? && !TitleLike(r.value) ==>
              && (forall i :: 0 <= i < |lines| ==> !TitleLike(lines[i]) && |lines[i]| <= |r.value|)
              && exists k :: 0 <= k < |lines| && lines[k] == r.value && forall i :: 0 <= i < k ==> |lines[i]| < |r.value|
  {
    match FirstWhere(lines, TitleLike)
    case Some(line) => Some(line)
    case None => if lines == [] then None else Some(lines[LongestIndex(lines)])
  }

  const LocationMarkers: seq<String> := ["都", "道", "府", "県", "市", "区", "リモート", "在宅"]

  /** A line `_find_location` takes: shorter than 50 characters and holding a location marker. */
  predicate LocationLike(line: String) {
    |line| < 50 && exists i :: 0 <= i < |LocationMarkers| && Contains(line, LocationMarkers[i])
  }

  /** `_find_location`: the first location-like line, or None. */
  function FindLocation(lines: seq<String>): (r: Option<String>)
    ensures r.Some? ==> LocationLike(r.value)
    ensures r.Some? ==> exists k :: 0 <= k < |lines| && lines[k] == r.value
                                    && forall i :: 0 <= i < k ==> !LocationLike(lines[i])
    ensures r.None? <==> forall i :: 0 <= i < |lines| ==> !LocationLike(lines[i])
  {
    FirstWhere(lines, LocationLike)
  }

  /** A line `_find_salary` takes: it holds 万円 or 万〜. */
  predicate SalaryLike(line: String) {
    Contains(line, "万円") || Contains(line, "万〜")
  }

  /** `_find_salary`: the first salary-like line, or None. */
  function FindSalary(lines: seq<String>): (r: Option<String>)
    ensures r.Some? ==> SalaryLike(r.value)
    ensures r.Some? ==> exists k :: 0 <= k < |lines| && lines[k] == r.value
                                    && forall i :: 0 <= i < k ==> !SalaryLike(lines[i])
    ensures r.None? <==> forall i :: 0 <= i < |lines| ==> !SalaryLike(lines[i])
  {
    FirstWhere(lines, SalaryLike)
  }

  // ---------------------------------------------------------------------------
  // Job id, cards and pages

  /** `JOB_ID_PATTERN`'s fixed part: the id is the run of digits after it. */
  const JobPath: String := "/job/"

  /** A card: the `href` of its first link to `/job/N`, and its text joined by newlines. */
  datatype Card = Card(jobHref: Option<String>, text: String)

  /** A URL made absolute: kept when it starts with "http", otherwise `urljoin(BASE_URL, url)`. */
  function Absolute(url: String, urljoin: (String, String) -> String): (r: String)
    ensures StartsWith(url, "http") ==> r == url
    ensures !StartsWith(url, "http") ==> r == urljoin(BaseUrl, url)
  {
    if StartsWith(url, "http") then url else urljoin(BaseUrl, url)
  }

  /**
   * `_parse_job`: a card without a job link, or whose absolute URL holds no
   * job id, is dropped; the other fields come from the card's lines.
   */
  function ParseJob(c: Card, urljoin: (String, String) -> String): (r: Option<Listing>)
    ensures r.None? <==> c.jobHref.None? || PathIds.FindId(Absolute(c.jobHref.value, urljoin), JobPath).None?
    ensures r.Some? ==>
              var lines := ExtractTextLines(c.text);
              && Some(r.value.jobId) == PathIds.FindId(r.value.url, JobPath)
              && r.value.url == Absolute(c.jobHref.value, urljoin)
              && r.value.company == FindCompany(lines) && r.value.title == FindTitle(lines)
              && r.value.location == FindLocation(lines) && r.value.salaryText == FindSalary(lines)
              && r.value.description == Join(lines, " ") && r.value.board == Board
    ensures r.Some? ==>
              var salary := ParseSalary(FindSalary(ExtractTextLines(c.text)));
              && r.value.salaryMin == (if salary.Some? then Some(salary.value.0) else None)
              && r.value.salaryMax == (if salary.Some? then Some(salary.value.1) else None)
    ensures r.Some? ==> (r.value.salaryMin.Some? <==> r.value.salaryMax.Some?)
    ensures r.Some? && r.value.salaryMin.Some? ==> r.value.salaryText.Some?
  {
    match c.jobHref
    case None => None
    case Some(href) =>
      var url := Absolute(href, urljoin);
      match PathIds.FindId(url, JobPath)
      case None => None
      case Some(id) =>
        var lines := ExtractTextLines(c.text);
        var salaryText := FindSalary(lines);
        var salary := ParseSalary(salaryText);
        Some(Listing(
          id,
          FindTitle(lines),
          FindCompany(lines),
          FindLocation(lines),
          salaryText,
          if salary.Some? then Some(salary.value.0) else None,
          if salary.Some? then Some(salary.value.1) else None,
          url,
          Board,
          Join(lines, " ")))
  }

  /** The text a link to page `n` holds in its `href`. */
  function PageMarker(n: nat): String {
    "page=" + NatToString(n)
  }

  /**
   * `_get_next_page_url`: the first link whose `href` holds `page=` and the
   * number of the page after `current` (0-based), made absolute.
   */
  function NextPageUrl(hrefs: seq<String>, current: nat, urljoin: (String, String) -> String): (r: Option<String>)
    ensures r.None? <==> forall i :: 0 <= i < |hrefs| ==> !Contains(hrefs[i], PageMarker(current + 1))
    ensures r.Some? ==> exists k :: 0 <= k < |hrefs| && Contains(hrefs[k], PageMarker(current + 1))
                                    && r.value == Absolute(hrefs[k], urljoin)
                                    && forall i :: 0 <= i < k ==> !Contains(hrefs[i], PageMarker(current + 1))
  {
    var marker := PageMarker(current + 1);
    match FirstIndex(hrefs, h => Contains(h, marker))
    case None => None
    case Some(k) => Some(Absolute(hrefs[k], urljoin))
  }

  /**
   * The page number is found as a substring: a link to a page whose number
   * merely starts with the wanted one (page 10 when page 1 is wanted) is
   * taken as well.
   */
  lemma PageMarkerMatchesLongerNumber(n: nat, d: char)
    requires IsDigit(d)
    ensures Contains(PageMarker(n) + [d], PageMarker(n))
  {
    var m := PageMarker(n);
    assert (m + [d])[0..|m|] == m;
    assert At(m + [d], 0, m);
  }

  /** A fetched results page: its cards and the `href`s of its links, in document order. */
  datatype Document = Document(cards: seq<Card>, hrefs: seq<String>)

  /** `_parse_job` with the URL joiner fixed, as one function of a card. */
  function ParseWith(urljoin: (String, String) -> String): Card -> Option<Listing> {
    c => ParseJob(c, urljoin)
  }

  /** `_parse_page`: the cards that parse, in order, and the link to the page after `current`. */
  function ParsePage(d: Document, current: nat, urljoin: (String, String) -> String)
    : (p: Paging.Page<String, Listing>)
    ensures |p.jobs| <= |d.cards|
    ensures forall i :: 0 <= i < |d.cards| && ParseJob(d.cards[i], urljoin).Some? ==>
              ParseJob(d.cards[i], urljoin).value in p.jobs
    ensures p.next == NextPageUrl(d.hrefs, current, urljoin)
  {
    Paging.Page(Collect(d.cards, ParseWith(urljoin)), NextPageUrl(d.hrefs, current, urljoin))
  }

  /** Every job of a page is what some card of it parses to. */
  lemma ParsePageOnlyParsed(d: Document, current: nat, urljoin: (String, String) -> String)
    ensures var jobs := ParsePage(d, current, urljoin).jobs;
            forall i :: 0 <= i < |jobs| ==> exists j :: 0 <= j < |d.cards| && ParseJob(d.cards[j], urljoin) == Some(jobs[i])
  {
    var jobs := ParsePage(d, current, urljoin).jobs;
    assert jobs == Collect(d.cards, ParseWith(urljoin));
    forall i | 0 <= i < |jobs|
      ensures exists j :: 0 <= j < |d.cards| && ParseJob(d.cards[j], urljoin) == Some(jobs[i])
    {
      var j :| 0 <= j < |d.cards| && ParseWith(urljoin)(d.cards[j]) == Some(jobs[i]);
    }
  }

  /**
   * The jobs of a page are read card by card, in document order: those of the
   * first cards come before those of the rest, and a card contributes its job
   * exactly when it parses.
   */
  lemma ParsePageInOrder(first: seq<Card>, rest: seq<Card>, c: Card, hrefs: seq<String>, current: nat,
                         urljoin: (String, String) -> String)
    ensures ParsePage(Document(first + rest, hrefs), current, urljoin).jobs
            == ParsePage(Document(first, hrefs), current, urljoin).jobs
               + ParsePage(Document(rest, hrefs), current, urljoin).jobs
    ensures ParsePage(Document([c], hrefs), current, urljoin).jobs
            == if ParseJob(c, urljoin).Some? then [ParseJob(c, urljoin).value] else []
  {
    CollectAppend(first, rest, ParseWith(urljoin));
    CollectOne(c, ParseWith(urljoin));
  }

  /** `_build_search_url`: the keywords, and the location when given, joined by spaces as the `keyword` parameter. */
  function BuildSearchUrl(keywords: seq<String>, location: Option<String>,
                          urlencode: seq<(String, String)> -> String): (url: String)
    ensures StartsWith(url, SearchUrl + "?")
    ensures location.None? || location.value == [] ==>
              url == SearchUrl + "?" + urlencode([("keyword", Join(keywords, " "))])
    ensures location.Some? && location.value != [] ==>
              url == SearchUrl + "?" + urlencode([("keyword", Join(keywords, " ") + " " + location.value)])
  {
    var term := if location.Some? && location.value != [] then Join(keywords, " ") + " " + location.value
                else Join(keywords, " ");
    var url := SearchUrl + "?" + urlencode([("keyword", term)]);
    assert url[..|SearchUrl| + 1] == SearchUrl + "?";
    url
  }

  /** One round of `search`: fetch the URL, then parse the page with the round number as the current page. */
  function Load(fetch: String -> Option<Document>, urljoin: (String, String) -> String)
    : (String, nat) -> Option<Paging.Page<String, Listing>>
  {
    (url: String, round: nat) =>
      match fetch(url)
      case None => None
      case Some(d) => Some(ParsePage(d, round, urljoin))
  }

  /** `search`: the shared page loop from the search URL; round `i` (0-based) looks for the link to page `i + 1`. */
  method Search(keywords: seq<String>, location: Option<String>, maxPages: int,
                urlencode: seq<(String, String)> -> String,
                fetch: String -> Option<Document>, urljoin: (String, String) -> String)
    returns (jobs: seq<Listing>, ghost visits: seq<Paging.Visit<String, Listing>>)
    ensures visits == Paging.Trace(Load(fetch, urljoin), BuildSearchUrl(keywords, location, urlencode), 0,
                                   if maxPages < 0 then 0 else maxPages)
    ensures jobs == Paging.AllJobs(
              Paging.Trace(Load(fetch, urljoin), BuildSearchUrl(keywords, location, urlencode), 0,
                           if maxPages < 0 then 0 else maxPages))
    ensures |visits| <= (if maxPages < 0 then 0 else maxPages)
  {
    jobs, visits := Paging.Search(Load(fetch, urljoin), BuildSearchUrl(keywords, location, urlencode), maxPages);
  }

  /** What one round yields: nothing when the fetch fails, otherwise a page whose next link is for page `round + 1`. */
  lemma LoadNext(fetch: String -> Option<Document>, urljoin: (String, String) -> String, url: String, round: nat)
    ensures Load(fetch, urljoin)(url, round).Some? <==> fetch(url).Some?
    ensures fetch(url).Some? ==>
              Load(fetch, urljoin)(url, round).value.next == NextPageUrl(fetch(url).value.hrefs, round, urljoin)
  {
  }

  /**
   * In the rounds `search` runs, every round `i` but the last parsed what it
   * fetched with `i` as the current page and moved to the link to page `i + 1`.
   */
  lemma SearchRoundsArePages(fetch: String -> Option<Document>, urljoin: (String, String) -> String,
                             start: String, left: nat, i: nat)
    requires i + 1 < |Paging.Trace(Load(fetch, urljoin), start, 0, left)|
    ensures fetch(Paging.Trace(Load(fetch, urljoin), start, 0, left)[i].at).Some?
    ensures NextPageUrl(fetch(Paging.Trace(Load(fetch, urljoin), start, 0, left)[i].at).value.hrefs, i, urljoin)
              == Some(Paging.Trace(Load(fetch, urljoin), start, 0, left)[i + 1].at)
  {
    var r := Paging.Trace(Load(fetch, urljoin), start, 0, left);
    Paging.TraceShape(Load(fetch, urljoin), start, 0, left);
    LoadNext(fetch, urljoin, r[i].at, i);
  }
}
