/**
 * The salary figures the Doda and Indeed scrapers pull out of free text with
 * Python's `re.findall`, written out as scanners over the characters.
 *
 * Both scrapers use the number pattern `\d{1,3}(?:,\d{3})*|\d+` followed by a
 * unit: Doda `万円`, Indeed `万?円`. For that pattern the regex engine's
 * backtracking never finds a match the greedy reading misses: a match at `p`
 * either takes the whole digit run (at most three digits) and then every
 * following `,ddd` group, or takes the whole digit run alone, and in both
 * cases the unit must follow at once. `findall` then resumes after the unit.
 */
module SalaryScan {
  import opened Wrappers
  import opened Text

  /** The unit after a figure: `万円`, or `万?円` (an optional 万, then 円). */
  datatype Unit = Man | OptionalMan

  /** A figure as the pattern captures it: a digit, then digits and commas. */
  predicate IsNumeral(g: String) {
    |g| > 0 && IsDigit(g[0]) && forall i :: 0 <= i < |g| ==> IsDigit(g[i]) || g[i] == ','
  }

  /** End of the run of digits that starts at `p`. */
  function DigitRunEnd(s: String, p: nat): (e: nat)
    requires p <= |s|
    ensures p <= e <= |s|
    ensures forall i :: p <= i < e ==> IsDigit(s[i])
    ensures e < |s| ==> !IsDigit(s[e])
    decreases |s| - p
  {
    if p < |s| && IsDigit(s[p]) then DigitRunEnd(s, p + 1) else p
  }

  /** A `,ddd` group starts at `q`. */
  predicate GroupAt(s: String, q: nat) {
    q + 4 <= |s| && s[q] == ',' && IsDigit(s[q + 1]) && IsDigit(s[q + 2]) && IsDigit(s[q + 3])
  }

  /** The strings `(?:,\d{3})*` matches: zero or more groups of a comma and three digits. */
  predicate Groups(t: String)
    decreases |t|
  {
    t == [] || (|t| >= 4 && t[0] == ',' && IsDigit(t[1]) && IsDigit(t[2]) && IsDigit(t[3]) && Groups(t[4..]))
  }

  /** The strings the number pattern `\d{1,3}(?:,\d{3})*|\d+` matches. */
  predicate InNumberPattern(g: String) {
    (|g| > 0 && AllDigits(g))
    || exists k :: 1 <= k <= 3 && k <= |g| && AllDigits(g[..k]) && Groups(g[k..])
  }

  /** End of the longest chain of `,ddd` groups starting at `q`: `(?:,\d{3})*` taken greedily. */
  function GroupChainEnd(s: String, q: nat): (e: nat)
    requires q <= |s|
    ensures q <= e <= |s|
    ensures forall i :: q <= i < e ==> IsDigit(s[i]) || s[i] == ','
    ensures Groups(s[q..e])
    ensures !GroupAt(s, e)
    decreases |s| - q
  {
    if GroupAt(s, q) then
      var e := GroupChainEnd(s, q + 4);
      assert s[q..e][4..] == s[q + 4..e];
      e
    else q
  }

  /** Length of the unit at `e`, 0 when there is none. */
  function UnitAt(s: String, e: nat, unit: Unit): (n: nat)
    ensures n > 0 ==> e + n <= |s|
    ensures n == 2 <==> At(s, e, "万円")
    ensures n == 1 <==> unit == OptionalMan && !At(s, e, "万円") && At(s, e, "円")
    ensures n <= 2
  {
    if At(s, e, "万円") then 2
    else if unit == OptionalMan && At(s, e, "円") then 1
    else 0
  }

  /**
   * Where the figure of a match starting exactly at `p` ends: the first
   * alternative (at most three digits, then `,ddd` groups) when the unit
   * follows it, otherwise the second (the digit run alone).
   */
  function NumberAt(s: String, p: nat, unit: Unit): (r: Option<nat>)
    requires p <= |s|
    ensures r.Some? ==> p < r.value <= |s| && IsNumeral(s[p..r.value]) && UnitAt(s, r.value, unit) > 0
    ensures p < |s| && !IsDigit(s[p]) ==> r.None?
  {
    var d := DigitRunEnd(s, p);
    if d == p then None
    else
      var c := GroupChainEnd(s, d);
      if d - p <= 3 && UnitAt(s, c, unit) > 0 then Some(c)
      else if UnitAt(s, d, unit) > 0 then Some(d)
      else None
  }

  /** A unit is neither a digit nor a comma. */
  lemma UnitEndsNumber(s: String, e: nat, unit: Unit)
    requires UnitAt(s, e, unit) > 0
    ensures e < |s| && !IsDigit(s[e]) && s[e] != ','
  {
    if At(s, e, "万円") {
      assert s[e] == s[e..e + 2][0];
    } else {
      assert s[e] == s[e..e + 1][0];
    }
  }

  lemma {:induction false} DigitRunEndAt(s: String, p: nat, e: nat)
    requires p <= e <= |s| && AllDigits(s[p..e]) && (e == |s| || !IsDigit(s[e]))
    ensures DigitRunEnd(s, p) == e
    decreases e - p
  {
    if p < e {
      assert s[p] == s[p..e][0];
      assert s[p + 1..e] == s[p..e][1..];
      DigitRunEndAt(s, p + 1, e);
    }
  }

  lemma {:induction false} GroupChainEndAt(s: String, q: nat, e: nat)
    requires q <= e <= |s| && Groups(s[q..e]) && !GroupAt(s, e)
    ensures GroupChainEnd(s, q) == e
    decreases e - q
  {
    if q < e {
      var t := s[q..e];
      assert t[0] == s[q] && t[1] == s[q + 1] && t[2] == s[q + 2] && t[3] == s[q + 3];
      assert t[4..] == s[q + 4..e];
      GroupChainEndAt(s, q + 4, e);
    }
  }

  /** Every figure `NumberAt` finds is a string the number pattern matches. */
  lemma NumberAtSound(s: String, p: nat, unit: Unit)
    requires p <= |s|
    ensures NumberAt(s, p, unit).Some? ==> InNumberPattern(s[p..NumberAt(s, p, unit).value])
  {
    var d := DigitRunEnd(s, p);
    if d > p {
      var c := GroupChainEnd(s, d);
      var g := s[p..c];
      if d - p <= 3 && UnitAt(s, c, unit) > 0 {
        var k := d - p;
        assert g[..k] == s[p..d] && g[k..] == s[d..c];
        assert AllDigits(g[..k]);
      } else if UnitAt(s, d, unit) > 0 {
        assert AllDigits(s[p..d]);
      }
    }
  }

  /**
   * No match is missed: when the text from `p` to `e` is matched by the number
   * pattern and a unit follows, the scanner finds exactly that figure.
   */
  lemma NumberAtComplete(s: String, p: nat, e: nat, unit: Unit)
    requires p <= e <= |s|
    requires InNumberPattern(s[p..e]) && UnitAt(s, e, unit) > 0
    ensures NumberAt(s, p, unit) == Some(e)
  {
    var g := s[p..e];
    if |g| > 0 && AllDigits(g) {
      NumberAtDigitRun(s, p, e, unit);
    } else {
      var k :| 1 <= k <= 3 && k <= |g| && AllDigits(g[..k]) && Groups(g[k..]);
      assert g[..k] == s[p..p + k] && g[k..] == s[p + k..e];
      NumberAtGrouped(s, p, k, e, unit);
    }
  }

  /** A run of digits followed by the unit is found whole. */
  lemma NumberAtDigitRun(s: String, p: nat, e: nat, unit: Unit)
    requires p < e <= |s| && AllDigits(s[p..e]) && UnitAt(s, e, unit) > 0
    ensures NumberAt(s, p, unit) == Some(e)
  {
    UnitEndsNumber(s, e, unit);
    DigitRunEndAt(s, p, e);
    assert !GroupAt(s, e);
    assert GroupChainEnd(s, e) == e;
  }

  /** One to three digits, then `,ddd` groups, followed by the unit, are found whole. */
  lemma NumberAtGrouped(s: String, p: nat, k: nat, e: nat, unit: Unit)
    requires 1 <= k <= 3 && p + k <= e <= |s|
    requires AllDigits(s[p..p + k]) && Groups(s[p + k..e]) && UnitAt(s, e, unit) > 0
    ensures NumberAt(s, p, unit) == Some(e)
  {
    UnitEndsNumber(s, e, unit);
    if p + k < e {
      assert s[p + k] == s[p + k..e][0];
    }
    DigitRunEndAt(s, p, p + k);
    assert !GroupAt(s, e);
    GroupChainEndAt(s, p + k, e);
  }

  /**
   * A pattern as `findall` uses it: at each position, the figure a match
   * starting there captures and the position where the search resumes.
   */
  type Matcher = nat -> Option<(String, nat)>

  /** Every match ends inside the text, past where it starts, and captures a figure. */
  ghost predicate Advances(s: String, at: Matcher) {
    forall q :: 0 <= q < |s| && at(q).Some? ==> q < at(q).value.1 <= |s| && IsNumeral(at(q).value.0)
  }

  /** `findall` from `p`: the figure of each match, in order, resuming after each match. */
  function Scan(s: String, p: nat, at: Matcher): (r: seq<String>)
    requires p <= |s| && Advances(s, at)
    ensures forall i :: 0 <= i < |r| ==> IsNumeral(r[i])
    decreases |s| - p
  {
    if p == |s| then []
    else
      match at(p)
      case None => Scan(s, p + 1, at)
      case Some((g, next)) => [g] + Scan(s, next, at)
  }

  /** No match at `p`: the search goes on from the next position. */
  lemma ScanSkip(s: String, p: nat, at: Matcher)
    requires p < |s| && Advances(s, at) && at(p).None?
    ensures Scan(s, p, at) == Scan(s, p + 1, at)
  {
  }

  /** A match at `p`: its figure, then the search from where it resumes. */
  lemma ScanTake(s: String, p: nat, at: Matcher)
    requires p < |s| && Advances(s, at) && at(p).Some?
    ensures Scan(s, p, at) == [at(p).value.0] + Scan(s, at(p).value.1, at)
  {
  }

  /** The search from `p` finds nothing exactly when no position from `p` on starts a match. */
  lemma {:induction false} ScanEmpty(s: String, p: nat, at: Matcher)
    requires p <= |s| && Advances(s, at)
    ensures Scan(s, p, at) == [] <==> forall q :: p <= q < |s| ==> at(q).None?
    decreases |s| - p
  {
    if p < |s| {
      if at(p).None? {
        ScanSkip(s, p, at);
        ScanEmpty(s, p + 1, at);
      } else {
        ScanTake(s, p, at);
      }
    }
  }

  /** The number pattern and its unit as a matcher: the figure, resuming after the unit. */
  function NumberHit(s: String, unit: Unit): Matcher {
    (q: nat) => if q <= |s| && NumberAt(s, q, unit).Some? then
           var e := NumberAt(s, q, unit).value;
           Some((s[q..e], e + UnitAt(s, e, unit)))
         else None
  }

  lemma NumberHitAdvances(s: String, unit: Unit)
    ensures Advances(s, NumberHit(s, unit))
  {
  }

  /** `findall` of the number pattern and unit from position `p`: the figures in order. */
  function FindNumbers(s: String, p: nat, unit: Unit): (r: seq<String>)
    requires p <= |s|
    ensures forall i :: 0 <= i < |r| ==> IsNumeral(r[i])
  {
    NumberHitAdvances(s, unit);
    Scan(s, p, NumberHit(s, unit))
  }

  /** No match at `p`: the search goes on from the next position. */
  lemma FindNumbersSkip(s: String, p: nat, unit: Unit)
    requires p < |s| && NumberAt(s, p, unit).None?
    ensures FindNumbers(s, p, unit) == FindNumbers(s, p + 1, unit)
  {
    NumberHitAdvances(s, unit);
    ScanSkip(s, p, NumberHit(s, unit));
  }

  /** A match at `p`: its figure, then the search from after its unit. */
  lemma FindNumbersTake(s: String, p: nat, e: nat, unit: Unit)
    requires p < |s| && NumberAt(s, p, unit) == Some(e)
    ensures FindNumbers(s, p, unit) == [s[p..e]] + FindNumbers(s, e + UnitAt(s, e, unit), unit)
  {
    NumberHitAdvances(s, unit);
    assert NumberHit(s, unit)(p) == Some((s[p..e], e + UnitAt(s, e, unit)));
    ScanTake(s, p, NumberHit(s, unit));
  }

  /** The search from `p` finds nothing exactly when no position from `p` on starts a match. */
  lemma FindNumbersEmpty(s: String, p: nat, unit: Unit)
    requires p <= |s|
    ensures FindNumbers(s, p, unit) == [] <==> forall q :: p <= q < |s| ==> NumberAt(s, q, unit).None?
  {
    NumberHitAdvances(s, unit);
    ScanEmpty(s, p, NumberHit(s, unit));
    assert forall q :: p <= q < |s| ==> (NumberHit(s, unit)(q).None? <==> NumberAt(s, q, unit).None?);
  }

  /**
   * Doda's annual pattern `(?:年収|予定年収)[＞>]?` followed by the number
   * pattern and `万円`, matched exactly at `p`: the start and end of the figure.
   */
  function AnnualAt(s: String, p: nat): (r: Option<(nat, nat)>)
    requires p <= |s|
    ensures r.Some? ==> p < r.value.0 < r.value.1 <= |s| && IsNumeral(s[r.value.0..r.value.1])
                        && At(s, r.value.1, "万円")
    ensures r.Some? ==> At(s, p, "年収") || At(s, p, "予定年収")
    ensures r.Some? ==> r.value.0 <= |s| && NumberAt(s, r.value.0, Man) == Some(r.value.1)
  {
    var q := if At(s, p, "年収") then p + 2 else if At(s, p, "予定年収") then p + 4 else p;
    if q == p then None
    else
      var n := if q < |s| && (s[q] == '＞' || s[q] == '>') then q + 1 else q;
      match NumberAt(s, n, Man)
      case Some(e) => Some((n, e))
      case None => None
  }

  /** Doda's annual pattern as a matcher: the figure, resuming after its 万円. */
  function AnnualHit(s: String): Matcher {
    (q: nat) => if q <= |s| && AnnualAt(s, q).Some? then
           var (a, e) := AnnualAt(s, q).value;
           Some((s[a..e], e + 2))
         else None
  }

  lemma AnnualHitAdvances(s: String)
    ensures Advances(s, AnnualHit(s))
  {
  }

  /** `findall` of the annual pattern from position `p`. */
  function FindAnnual(s: String, p: nat): (r: seq<String>)
    requires p <= |s|
    ensures forall i :: 0 <= i < |r| ==> IsNumeral(r[i])
  {
    AnnualHitAdvances(s);
    Scan(s, p, AnnualHit(s))
  }

  /** An annual match at `p`: its figure, then the search from after its 万円. */
  lemma FindAnnualTake(s: String, p: nat, a: nat, e: nat)
    requires p < |s| && AnnualAt(s, p) == Some((a, e))
    ensures FindAnnual(s, p) == [s[a..e]] + FindAnnual(s, e + 2)
  {
    AnnualHitAdvances(s);
    AnnualHitAt(s, p, a, e);
    ScanTake(s, p, AnnualHit(s));
  }

  lemma AnnualHitAt(s: String, p: nat, a: nat, e: nat)
    requires p < |s| && AnnualAt(s, p) == Some((a, e))
    ensures a <= e <= |s| && AnnualHit(s)(p) == Some((s[a..e], e + 2))
  {
  }

  /** The annual search from `p` finds nothing exactly when no position from `p` on starts a match. */
  lemma FindAnnualEmpty(s: String, p: nat)
    requires p <= |s|
    ensures FindAnnual(s, p) == [] <==> forall q :: p <= q < |s| ==> AnnualAt(s, q).None?
  {
    AnnualHitAdvances(s);
    ScanEmpty(s, p, AnnualHit(s));
    assert forall q :: p <= q < |s| ==> (AnnualHit(s)(q).None? <==> AnnualAt(s, q).None?);
  }

  /** No annual match starts at a character other than 年 or 予. */
  lemma NoAnnualAt(s: String, q: nat)
    requires q < |s| && s[q] != '年' && s[q] != '予'
    ensures AnnualAt(s, q).None?
  {
    assert !At(s, q, "年収") by {
      if q + 2 <= |s| {
        assert s[q..q + 2][0] == s[q];
      }
    }
    assert !At(s, q, "予定年収") by {
      if q + 4 <= |s| {
        assert s[q..q + 4][0] == s[q];
      }
    }
  }

  /** A text with no 年 or 予 from `p` on has no annual figure there. */
  lemma NoAnnualMarkerFrom(s: String, p: nat)
    requires p <= |s|
    requires forall q :: p <= q < |s| ==> s[q] != '年' && s[q] != '予'
    ensures FindAnnual(s, p) == []
  {
    forall q | p <= q < |s| ensures AnnualAt(s, q).None? {
      NoAnnualAt(s, q);
    }
    FindAnnualEmpty(s, p);
  }

  /** `int(g.replace(",", ""))`: the digits of the figure read as a decimal number. */
  function NumeralValue(g: String): nat
    requires IsNumeral(g)
  {
    var digits := RemoveChars(g, {','});
    assert AllDigits(digits) by {
      forall i | 0 <= i < |digits| ensures IsDigit(digits[i]) {
        assert digits[i] in g && digits[i] != ',';
      }
    }
    DecimalValue(digits)
  }

  /** A figure's value is the decimal value of its digits once the commas are removed. */
  lemma NumeralValueOf(g: String, digits: String)
    requires IsNumeral(g) && RemoveChars(g, {','}) == digits
    ensures NumeralValue(g) == DecimalValue(digits)
  {
  }

  lemma TwoDigitValue(a: char, b: char)
    requires IsDigit(a) && IsDigit(b)
    ensures IsNumeral([a, b]) && NumeralValue([a, b]) == DigitValue(a) * 10 + DigitValue(b)
  {
    assert RemoveChars([a, b], {','}) == [a, b];
    assert [a, b][..1] == [a];
    assert [a][..0] == [];
    assert DecimalValue([a]) == DigitValue(a);
    assert DecimalValue([a, b]) == DigitValue(a) * 10 + DigitValue(b);
  }

  lemma ThreeDigitValue(a: char, b: char, c: char)
    requires IsDigit(a) && IsDigit(b) && IsDigit(c)
    ensures IsNumeral([a, b, c])
    ensures NumeralValue([a, b, c]) == DigitValue(a) * 100 + DigitValue(b) * 10 + DigitValue(c)
  {
    assert RemoveChars([a, b, c], {','}) == [a, b, c];
    assert [a, b, c][..2] == [a, b];
    assert [a, b][..1] == [a];
    assert [a][..0] == [];
    assert DecimalValue([a]) == DigitValue(a);
    assert DecimalValue([a, b]) == DigitValue(a) * 10 + DigitValue(b);
  }

  /** The figures of a `findall`, converted by `NumeralValue`. */
  function Values(groups: seq<String>): (r: seq<nat>)
    requires forall i :: 0 <= i < |groups| ==> IsNumeral(groups[i])
    ensures |r| == |groups|
    ensures forall i :: 0 <= i < |groups| ==> r[i] == NumeralValue(groups[i])
  {
    if groups == [] then [] else [NumeralValue(groups[0])] + Values(groups[1..])
  }

  /**
   * The monthly-to-annual step both scrapers share: an amount below
   * 2,500,000 yen is taken as a month's pay and multiplied by 12.
   */
  function Annualise(amounts: seq<int>): (r: seq<int>)
    ensures |r| == |amounts|
    ensures forall i :: 0 <= i < |r| ==>
              r[i] == (if amounts[i] < 2500000 then amounts[i] * 12 else amounts[i])
  {
    if amounts == [] then []
    else [if amounts[0] < 2500000 then amounts[0] * 12 else amounts[0]] + Annualise(amounts[1..])
  }

  /** `min(amounts)`. */
  function MinOf(amounts: seq<int>): (m: int)
    requires |amounts| > 0
    ensures m in amounts
    ensures forall i :: 0 <= i < |amounts| ==> m <= amounts[i]
  {
    if |amounts| == 1 then amounts[0]
    else
      var rest := MinOf(amounts[1..]);
      assert forall i :: 1 <= i < |amounts| ==> amounts[i] == amounts[1..][i - 1];
      if amounts[0] <= rest then amounts[0] else rest
  }

  /** `max(amounts)`. */
  function MaxOf(amounts: seq<int>): (m: int)
    requires |amounts| > 0
    ensures m in amounts
    ensures forall i :: 0 <= i < |amounts| ==> amounts[i] <= m
  {
    if |amounts| == 1 then amounts[0]
    else
      var rest := MaxOf(amounts[1..]);
      assert forall i :: 1 <= i < |amounts| ==> amounts[i] == amounts[1..][i - 1];
      if amounts[0] >= rest then amounts[0] else rest
  }

  /** The pair the salary parsers return: `(min(amounts), max(amounts))`, so the first never exceeds the second. */
  function Range(amounts: seq<int>): (r: (int, int))
    requires |amounts| > 0
    ensures r.0 <= r.1
    ensures r.0 in amounts && r.1 in amounts
    ensures forall i :: 0 <= i < |amounts| ==> r.0 <= amounts[i] <= r.1
  {
    (MinOf(amounts), MaxOf(amounts))
  }
}
