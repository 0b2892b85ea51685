/**
 * Character and string primitives shared by every module: Python's notion of
 * whitespace (`str.isspace`, `\s`, `strip`), lower-casing, decimal digits
 * (`\d`, `int`), substring tests and number formatting.
 */
module Text {

  type String = seq<char>

  /** Python's `str.isspace`, which is also what `\s` and `strip()` use. */
  predicate IsSpace(c: char) {
    || c == ' ' || ('\t' <= c <= '\r') || ('\U{1c}' <= c <= '\U{1f}')
    || c == '\U{85}' || c == '\U{a0}' || c == '\U{1680}'
    || ('\U{2000}' <= c <= '\U{200a}') || c == '\U{2028}' || c == '\U{2029}'
    || c == '\U{202f}' || c == '\U{205f}' || c == '\U{3000}'
  }

  predicate IsUpper(c: char) { 'A' <= c <= 'Z' }

  function LowerChar(c: char): (d: char)
    ensures !IsUpper(d)
    ensures !IsUpper(c) ==> d == c
    ensures IsSpace(d) <==> IsSpace(c)
  {
    if IsUpper(c) then (c as int + 32) as char else c
  }

  /** No upper-case letter occurs in `s`. */
  predicate IsLowerCase(s: String) {
    forall i :: 0 <= i < |s| ==> !IsUpper(s[i])
  }

  /** `str.lower()`. */
  function Lower(s: String): (r: String)
    ensures |r| == |s| && IsLowerCase(r)
    ensures forall i :: 0 <= i < |s| ==> r[i] == LowerChar(s[i])
  {
    seq(|s|, i requires 0 <= i < |s| => LowerChar(s[i]))
  }

  /** Lower-casing works character by character. */
  lemma LowerAppend(a: String, b: String)
    ensures Lower(a + b) == Lower(a) + Lower(b)
  {
    assert forall i :: 0 <= i < |a + b| ==> (a + b)[i] == if i < |a| then a[i] else b[i - |a|];
  }

  /** Number of whitespace characters at the front of `s`. */
  function LeadingSpaces(s: String): (n: nat)
    ensures n <= |s|
    ensures forall i :: 0 <= i < n ==> IsSpace(s[i])
    ensures n == |s| || !IsSpace(s[n])
  {
    if s != [] && IsSpace(s[0]) then 1 + LeadingSpaces(s[1..]) else 0
  }

  /** Number of whitespace characters at the end of `s`. */
  function TrailingSpaces(s: String): (n: nat)
    ensures n <= |s|
    ensures forall i :: |s| - n <= i < |s| ==> IsSpace(s[i])
    ensures n == |s| || !IsSpace(s[|s| - n - 1])
  {
    if s != [] && IsSpace(s[|s| - 1]) then 1 + TrailingSpaces(s[..|s| - 1]) else 0
  }

  /** `str.strip()`. */
  function Strip(s: String): (r: String)
    ensures |r| <= |s|
    ensures r == [] || (!IsSpace(r[0]) && !IsSpace(r[|r| - 1]))
    ensures forall i :: 0 <= i < |r| ==> r[i] in s
    ensures IsLowerCase(s) ==> IsLowerCase(r)
  {
    var a := LeadingSpaces(s);
    var t := s[a..];
    t[..|t| - TrailingSpaces(t)]
  }

  /** End of the run of whitespace that starts at `p`: `\s*` taken greedily. */
  function SpaceRunEnd(s: String, p: nat): (e: nat)
    requires p <= |s|
    ensures p <= e <= |s|
    ensures forall i :: p <= i < e ==> IsSpace(s[i])
    ensures e < |s| ==> !IsSpace(s[e])
    decreases |s| - p
  {
    if p < |s| && IsSpace(s[p]) then SpaceRunEnd(s, p + 1) else p
  }

  /** A run of whitespace from `p` that ends at `e` is the run `SpaceRunEnd` finds. */
  lemma {:induction false} SpaceRunEndAt(s: String, p: nat, e: nat)
    requires p <= e <= |s|
    requires forall i :: p <= i < e ==> IsSpace(s[i])
    requires e == |s| || !IsSpace(s[e])
    ensures SpaceRunEnd(s, p) == e
    decreases e - p
  {
    if p < e {
      SpaceRunEndAt(s, p + 1, e);
    }
  }

  /** `s` has no whitespace at either end. */
  predicate IsStripped(s: String) {
    s == [] || (!IsSpace(s[0]) && !IsSpace(s[|s| - 1]))
  }

  lemma StripStripped(s: String)
    requires IsStripped(s)
    ensures Strip(s) == s
  {
    assert LeadingSpaces(s) == 0;
    assert TrailingSpaces(s) == 0;
  }

  lemma {:induction false} LeadingSpacesOfPadded(pad: String, t: String)
    requires forall i :: 0 <= i < |pad| ==> IsSpace(pad[i])
    requires t == [] || !IsSpace(t[0])
    ensures LeadingSpaces(pad + t) == |pad|
    decreases |pad|
  {
    if pad != [] {
      assert (pad + t)[1..] == pad[1..] + t;
      LeadingSpacesOfPadded(pad[1..], t);
    }
  }

  /** Stripping a stripped string behind leading whitespace gives the string back. */
  lemma StripAfterSpaces(pad: String, t: String)
    requires forall i :: 0 <= i < |pad| ==> IsSpace(pad[i])
    requires IsStripped(t)
    ensures Strip(pad + t) == t
  {
    LeadingSpacesOfPadded(pad, t);
    assert (pad + t)[|pad|..] == t;
    assert TrailingSpaces(t) == 0;
  }

  lemma {:induction false} TrailingSpacesOfPadded(t: String, pad: String)
    requires forall i :: 0 <= i < |pad| ==> IsSpace(pad[i])
    requires t == [] || !IsSpace(t[|t| - 1])
    ensures TrailingSpaces(t + pad) == |pad|
    decreases |pad|
  {
    if pad != [] {
      assert (t + pad)[..|t + pad| - 1] == t + pad[..|pad| - 1];
      TrailingSpacesOfPadded(t, pad[..|pad| - 1]);
    }
  }

  /**
   * Stripping removes exactly the whitespace at both ends: a stripped text
   * between two runs of whitespace comes back unchanged.
   */
  lemma StripPadded(before: String, t: String, after: String)
    requires forall i :: 0 <= i < |before| ==> IsSpace(before[i])
    requires forall i :: 0 <= i < |after| ==> IsSpace(after[i])
    requires IsStripped(t)
    ensures Strip(before + t + after) == t
  {
    var s := before + t + after;
    if t == [] {
      assert s == (before + after) + [];
      LeadingSpacesOfPadded(before + after, []);
    } else {
      assert s == before + (t + after);
      LeadingSpacesOfPadded(before, t + after);
      assert s[|before|..] == t + after;
      TrailingSpacesOfPadded(t, after);
      assert (t + after)[..|t|] == t;
    }
  }

  /** Every whitespace character is a plain space, and no two spaces are adjacent. */
  predicate IsSingleSpaced(s: String) {
    && (forall i :: 0 <= i < |s| && IsSpace(s[i]) ==> s[i] == ' ')
    && (forall i :: 0 <= i < |s| - 1 ==> !(s[i] == ' ' && s[i + 1] == ' '))
  }

  /** `re.sub(r"\s+", " ", s)`: every maximal run of whitespace becomes one space. */
  function CollapseSpaces(s: String): (r: String)
    ensures |r| <= |s|
    ensures IsLowerCase(s) ==> IsLowerCase(r)
    decreases |s|
  {
    if s == [] then []
    else if IsSpace(s[0]) then [' '] + CollapseSpaces(s[LeadingSpaces(s)..])
    else [s[0]] + CollapseSpaces(s[1..])
  }

  /** After collapsing, whitespace is single plain spaces, and it stays at the ends where it was. */
  lemma {:induction false} CollapseIsSingleSpaced(s: String)
    ensures IsSingleSpaced(CollapseSpaces(s))
    ensures s != [] ==> CollapseSpaces(s) != [] && (IsSpace(s[0]) <==> CollapseSpaces(s)[0] == ' ')
    decreases |s|
  {
    if s != [] {
      var n := if IsSpace(s[0]) then LeadingSpaces(s) else 1;
      var rest := CollapseSpaces(s[n..]);
      CollapseIsSingleSpaced(s[n..]);
      var r := CollapseSpaces(s);
      assert r == [if IsSpace(s[0]) then ' ' else s[0]] + rest;
      assert IsSpace(s[0]) ==> rest == [] || rest[0] != ' ' by {
        if IsSpace(s[0]) && s[n..] != [] {
          assert !IsSpace(s[n..][0]);
        }
      }
    }
  }

  /** Collapsing keeps whitespace at the end exactly when there was some. */
  lemma {:induction false} CollapseLast(s: String)
    ensures s != [] ==> var r := CollapseSpaces(s); r != [] && (IsSpace(s[|s| - 1]) <==> r[|r| - 1] == ' ')
    decreases |s|
  {
    if s != [] {
      var n := if IsSpace(s[0]) then LeadingSpaces(s) else 1;
      var x := if IsSpace(s[0]) then ' ' else s[0];
      var rest := CollapseSpaces(s[n..]);
      assert CollapseSpaces(s) == [x] + rest;
      if n == |s| {
        assert rest == [];
        assert IsSpace(s[|s| - 1]) <==> IsSpace(s[0]);
      } else {
        CollapseLast(s[n..]);
        assert s[n..][|s[n..]| - 1] == s[|s| - 1];
        assert rest != [] && ([x] + rest)[|rest|] == rest[|rest| - 1];
      }
    }
  }

  /** Every character of `s` is whitespace. */
  predicate AllSpaces(s: String) {
    forall i :: 0 <= i < |s| ==> IsSpace(s[i])
  }

  lemma LowerOfLowerCase(s: String)
    requires IsLowerCase(s)
    ensures Lower(s) == s
  {
  }

  lemma SingleSpacedTail(u: String)
    requires IsSingleSpaced(u) && u != []
    ensures IsSingleSpaced(u[1..])
  {
    var t := u[1..];
    assert forall i :: 0 <= i < |t| ==> t[i] == u[i + 1];
  }

  lemma CollapseConsNonSpace(c: char, x: String)
    requires !IsSpace(c)
    ensures CollapseSpaces([c] + x) == [c] + CollapseSpaces(x)
  {
    assert ([c] + x)[1..] == x;
  }

  lemma CollapseConsSpace(x: String)
    requires x == [] || !IsSpace(x[0])
    ensures CollapseSpaces([' '] + x) == [' '] + CollapseSpaces(x)
  {
    var s := [' '] + x;
    assert s[1..] == x;
    assert LeadingSpaces(x) == 0;
    assert LeadingSpaces(s) == 1;
  }

  /** The first character of a single-spaced text ending in a non-space survives collapsing unchanged. */
  lemma CollapseFirstOfSingleSpaced(u: String, w: String)
    requires IsSingleSpaced(u) && u != [] && !IsSpace(u[|u| - 1])
    ensures CollapseSpaces(u + w) == [u[0]] + CollapseSpaces(u[1..] + w)
  {
    var x := u[1..] + w;
    assert u + w == [u[0]] + x;
    if IsSpace(u[0]) {
      assert u[0] == ' ' && |u| > 1;
      assert !IsSpace(u[1]);
      assert x[0] == u[1];
      CollapseConsSpace(x);
    } else {
      CollapseConsNonSpace(u[0], x);
    }
  }

  /** Collapsing distributes over a single-spaced prefix that ends in a non-space. */
  lemma {:induction false} CollapseAfterSingleSpaced(u: String, w: String)
    requires IsSingleSpaced(u)
    requires u == [] || !IsSpace(u[|u| - 1])
    ensures CollapseSpaces(u + w) == u + CollapseSpaces(w)
    decreases |u|
  {
    if u == [] {
      assert u + w == w;
    } else {
      var t := u[1..];
      CollapseFirstOfSingleSpaced(u, w);
      SingleSpacedTail(u);
      assert t == [] || t[|t| - 1] == u[|u| - 1];
      CollapseAfterSingleSpaced(t, w);
      var rest := CollapseSpaces(w);
      assert CollapseSpaces(u + w) == [u[0]] + (t + rest);
      assert [u[0]] + (t + rest) == u + rest;
    }
  }

  /** A run of whitespace in front of a non-space collapses to one space. */
  lemma CollapseLeadingRun(sp: String, w: String)
    requires sp != [] && AllSpaces(sp)
    requires w == [] || !IsSpace(w[0])
    ensures CollapseSpaces(sp + w) == [' '] + CollapseSpaces(w)
  {
    LeadingSpacesOfPadded(sp, w);
    assert (sp + w)[|sp|..] == w;
  }

  /** Two words with whitespace between them collapse to the words around one space. */
  lemma CollapseWords(w1: String, gap: String, w2: String)
    requires w1 != [] && w2 != [] && gap != []
    requires forall i :: 0 <= i < |w1| ==> !IsSpace(w1[i])
    requires forall i :: 0 <= i < |w2| ==> !IsSpace(w2[i])
    requires AllSpaces(gap)
    ensures CollapseSpaces(w1 + gap + w2) == w1 + " " + w2
  {
    WordIsSingleSpaced(w2);
    CollapseSingleSpaced(w2);
    CollapseLeadingRun(gap, w2);
    WordIsSingleSpaced(w1);
    CollapseAfterSingleSpaced(w1, gap + w2);
    assert w1 + gap + w2 == w1 + (gap + w2);
    assert w1 + ([' '] + w2) == w1 + " " + w2;
  }

  /** A non-empty word without whitespace is single-spaced and ends in a non-space. */
  lemma WordIsSingleSpaced(w: String)
    requires w != [] && forall i :: 0 <= i < |w| ==> !IsSpace(w[i])
    ensures IsSingleSpaced(w) && !IsSpace(w[|w| - 1]) && !IsSpace(w[0])
  {
  }

  /** Lower-casing keeps whitespace where it is and adds none. */
  lemma LowerSpaces(s: String)
    ensures forall i :: 0 <= i < |s| ==> (IsSpace(Lower(s)[i]) <==> IsSpace(s[i]))
  {
  }

  /** Two words around whitespace, lower-cased, stripped and collapsed: the lower-cased words around one space. */
  lemma CollapseLowerWords(w1: String, gap: String, w2: String)
    requires w1 != [] && w2 != [] && gap != []
    requires forall i :: 0 <= i < |w1| ==> !IsSpace(w1[i])
    requires forall i :: 0 <= i < |w2| ==> !IsSpace(w2[i])
    requires forall i :: 0 <= i < |gap| ==> IsSpace(gap[i])
    ensures CollapseSpaces(Strip(Lower(w1 + gap + w2))) == Lower(w1) + " " + Lower(w2)
  {
    var l1, lg, l2 := Lower(w1), Lower(gap), Lower(w2);
    LowerSpaces(w1);
    LowerSpaces(gap);
    LowerSpaces(w2);
    var t := l1 + lg + l2;
    assert Lower(w1 + gap + w2) == t by {
      LowerAppend(w1 + gap, w2);
      LowerAppend(w1, gap);
    }
    assert Strip(t) == t by {
      assert t[0] == l1[0] && t[|t| - 1] == l2[|l2| - 1];
      StripStripped(t);
    }
    CollapseWords(l1, lg, l2);
  }

  /** Collapsing a string that is already single-spaced changes nothing. */
  lemma {:induction false} CollapseSingleSpaced(s: String)
    requires IsSingleSpaced(s)
    ensures CollapseSpaces(s) == s
    decreases |s|
  {
    if s != [] {
      if IsSpace(s[0]) {
        assert s[0] == ' ';
        assert LeadingSpaces(s) == 1 by {
          if |s| > 1 {
            assert !IsSpace(s[1]);
            assert LeadingSpaces(s[1..]) == 0;
          }
        }
        CollapseSingleSpaced(s[1..]);
      } else {
        CollapseSingleSpaced(s[1..]);
      }
    }
  }

  /** Python's `sub in s`. */
  predicate Contains(s: String, sub: String) {
    exists i | 0 <= i <= |s| :: At(s, i, sub)
  }

  predicate StartsWith(s: String, prefix: String) {
    |prefix| <= |s| && s[..|prefix|] == prefix
  }

  predicate EndsWith(s: String, suffix: String) {
    |suffix| <= |s| && s[|s| - |suffix|..] == suffix
  }

  /** `s` occurs in `t` at position `p`. */
  predicate At(t: String, p: int, s: String) {
    0 <= p && p + |s| <= |t| && t[p..p + |s|] == s
  }

  lemma AtContains(t: String, p: int, s: String)
    requires At(t, p, s)
    ensures Contains(t, s)
  {
  }

  /** A string in which the first character of `sub` never occurs does not contain `sub`. */
  lemma NotContainsFirst(s: String, sub: String)
    requires sub != []
    requires forall i :: 0 <= i < |s| ==> s[i] != sub[0]
    ensures !Contains(s, sub)
  {
    forall i | 0 <= i <= |s| ensures !At(s, i, sub) {
      if i + |sub| <= |s| {
        assert s[i..i + |sub|][0] == s[i];
      }
    }
  }

  /** Python's `\d` as far as this model goes: ASCII and full-width decimal digits. */
  predicate IsDigit(c: char) {
    ('0' <= c <= '9') || ('\U{ff10}' <= c <= '\U{ff19}')
  }

  function DigitValue(c: char): (d: nat)
    requires IsDigit(c)
    ensures d < 10
  {
    if '0' <= c <= '9' then c as int - '0' as int else c as int - '\U{ff10}' as int
  }

  predicate AllDigits(s: String) {
    forall i :: 0 <= i < |s| ==> IsDigit(s[i])
  }

  /** `int(s)` for a non-empty string of decimal digits. */
  function DecimalValue(s: String): (v: nat)
    requires AllDigits(s)
    ensures |s| > 0 && DigitValue(s[0]) > 0 ==> v >= Pow10(|s| - 1)
    ensures v < Pow10(|s|)
  {
    if s == [] then 0
    else
      var v := DecimalValue(s[..|s| - 1]) * 10 + DigitValue(s[|s| - 1]);
      assert |s| > 1 ==> s[..|s| - 1][0] == s[0];
      v
  }

  /** Reading one more digit multiplies by ten and adds it. */
  lemma DecimalSnoc(d: String, c: char)
    requires AllDigits(d) && IsDigit(c)
    ensures AllDigits(d + [c]) && DecimalValue(d + [c]) == DecimalValue(d) * 10 + DigitValue(c)
  {
    assert (d + [c])[..|d|] == d;
  }

  function Pow10(n: nat): (p: nat)
    ensures p >= 1
  {
    if n == 0 then 1 else 10 * Pow10(n - 1)
  }

  function DigitChar(d: nat): (c: char)
    requires d < 10
    ensures IsDigit(c) && DigitValue(c) == d
  {
    ('0' as int + d) as char
  }

  /** `str(n)` for a natural number. */
  function NatToString(n: nat): (s: String)
    ensures |s| > 0 && AllDigits(s)
    ensures DecimalValue(s) == n
    decreases n
  {
    if n < 10 then [DigitChar(n)]
    else
      var s := NatToString(n / 10) + [DigitChar(n % 10)];
      assert s[..|s| - 1] == NatToString(n / 10);
      s
  }

  /** `str(n)` for an integer. */
  function IntToString(n: int): (s: String)
    ensures |s| > 0
  {
    if n < 0 then "-" + NatToString(-n) else NatToString(n)
  }

  /** `sep.join(parts)`. */
  function Join(parts: seq<String>, sep: String): (r: String)
    ensures parts == [] ==> r == []
    ensures |parts| == 1 ==> r == parts[0]
  {
    if parts == [] then []
    else if |parts| == 1 then parts[0]
    else parts[0] + sep + Join(parts[1..], sep)
  }

  /** One more part joins the others after the separator. */
  lemma {:induction false} JoinSnoc(parts: seq<String>, x: String, sep: String)
    requires parts != []
    ensures Join(parts + [x], sep) == Join(parts, sep) + sep + x
    decreases |parts|
  {
    if |parts| == 1 {
      assert (parts + [x])[1..] == [x];
    } else {
      assert (parts + [x])[1..] == parts[1..] + [x];
      JoinSnoc(parts[1..], x, sep);
    }
  }

  /** `s.split(c)`: the pieces between occurrences of `c`, one more than there are occurrences. */
  function Split(s: String, c: char): (r: seq<String>)
    ensures |r| >= 1
    ensures forall i :: 0 <= i < |r| ==> c !in r[i]
    ensures Join(r, [c]) == s
    decreases |s|
  {
    if s == [] then [[]]
    else
      var rest := Split(s[1..], c);
      if s[0] == c then
        assert Join([[]] + rest, [c]) == [] + [c] + Join(rest, [c]) by {
          assert ([[]] + rest)[1..] == rest;
        }
        assert s == [s[0]] + s[1..];
        [[]] + rest
      else
        var r := [[s[0]] + rest[0]] + rest[1..];
        assert r[1..] == rest[1..];
        assert s == [s[0]] + s[1..];
        assert forall i :: 1 <= i < |r| ==> r[i] == rest[i];
        r
  }

  /** A text before the first separator is the first piece, and the pieces of the rest follow it. */
  lemma {:induction false} SplitCons(a: String, c: char, b: String)
    requires c !in a
    ensures Split(a + [c] + b, c) == [a] + Split(b, c)
    ensures Split(a, c) == [a]
    decreases |a|
  {
    if a == [] {
      assert a + [c] + b == [c] + b;
      assert ([c] + b)[1..] == b;
    } else {
      assert (a + [c] + b)[1..] == a[1..] + [c] + b;
      assert a[1..] + [c] + b != [];
      SplitCons(a[1..], c, b);
      assert [a[0]] + a[1..] == a;
    }
  }

  /** The characters of `s` that are not in `drop`, in order. */
  function RemoveChars(s: String, drop: set<char>): (r: String)
    ensures |r| <= |s|
    ensures forall i :: 0 <= i < |r| ==> r[i] !in drop && r[i] in s
    ensures (forall i :: 0 <= i < |s| ==> s[i] !in drop) ==> r == s
    ensures IsLowerCase(s) ==> IsLowerCase(r)
  {
    if s == [] then []
    else
      var rest := RemoveChars(s[1..], drop);
      assert forall i :: 0 <= i < |rest| ==> rest[i] in s by {
        forall i | 0 <= i < |rest| ensures rest[i] in s {
          var j :| 0 <= j < |s[1..]| && s[1..][j] == rest[i];
          assert s[1 + j] == rest[i];
        }
      }
      if s[0] in drop then rest else [s[0]] + rest
  }

  /** Removing characters works piece by piece. */
  lemma {:induction false} RemoveCharsAppend(s: String, t: String, drop: set<char>)
    ensures RemoveChars(s + t, drop) == RemoveChars(s, drop) + RemoveChars(t, drop)
    decreases |s|
  {
    if s == [] {
      assert s + t == t;
    } else {
      assert (s + t)[0] == s[0];
      assert (s + t)[1..] == s[1..] + t;
      RemoveCharsAppend(s[1..], t, drop);
    }
  }

  /** Removing a dropped character from between two texts that hold none joins the two. */
  lemma RemoveCharBetween(a: String, c: char, b: String, drop: set<char>)
    requires c in drop
    requires forall i :: 0 <= i < |a| ==> a[i] !in drop
    requires forall i :: 0 <= i < |b| ==> b[i] !in drop
    ensures RemoveChars(a + [c] + b, drop) == a + b
  {
    assert a + [c] + b == a + ([c] + b);
    RemoveCharsAppend(a, [c] + b, drop);
    RemoveCharsDropsHead(c, b, drop);
    RemoveCharsKeeps(a, drop);
    RemoveCharsKeeps(b, drop);
  }

  lemma RemoveCharsKeeps(s: String, drop: set<char>)
    requires forall i :: 0 <= i < |s| ==> s[i] !in drop
    ensures RemoveChars(s, drop) == s
  {
  }

  lemma RemoveCharsDropsHead(c: char, b: String, drop: set<char>)
    requires c in drop
    ensures RemoveChars([c] + b, drop) == RemoveChars(b, drop)
  {
    assert ([c] + b)[1..] == b;
  }

  /** `s[:n]`. */
  function Truncate(s: String, n: nat): (r: String)
    ensures |r| <= n && |r| <= |s|
    ensures r == s[..|r|]
    ensures |s| <= n ==> r == s
    ensures |s| > n ==> |r| == n
  {
    if |s| <= n then s else s[..n]
  }
}
