/**
 * The `re.search(marker + r'(\d+)', url)` searches with which the Green and
 * Wantedly scrapers pull a numeric id out of a URL: the leftmost place where
 * the marker is followed by at least one digit, and the digits there, taken
 * greedily.
 */
module PathIds {
  import opened Wrappers
  import opened Text
  import SalaryScan

  /** The marker starts at `p` and is followed by the digits `url[p + |marker|..e]`, all of them. */
  predicate IdMatch(url: String, marker: String, p: int, e: int) {
    && At(url, p, marker) && p + |marker| < e <= |url|
    && AllDigits(url[p + |marker|..e]) && (e == |url| || !IsDigit(url[e]))
  }

  /** The search from `p`: the leftmost match, as its start and the end of its digits. */
  function IdFrom(url: String, marker: String, p: nat): (r: Option<(nat, nat)>)
    requires p <= |url|
    ensures r.Some? ==> p <= r.value.0 && IdMatch(url, marker, r.value.0, r.value.1)
    ensures r.Some? ==> forall q, e :: p <= q < r.value.0 ==> !IdMatch(url, marker, q, e)
    ensures r.None? ==> forall q, e :: p <= q ==> !IdMatch(url, marker, q, e)
    decreases |url| - p
  {
    if p + |marker| >= |url| then None
    else
      var st := p + |marker|;
      var d := SalaryScan.DigitRunEnd(url, st);
      if At(url, p, marker) && st < d then
        assert AllDigits(url[st..d]) by {
          forall i | 0 <= i < d - st ensures IsDigit(url[st..d][i]) {
            assert url[st..d][i] == url[st + i];
          }
        }
        Some((p, d))
      else
        assert forall e :: !IdMatch(url, marker, p, e) by {
          forall e | st < e <= |url| && At(url, p, marker) ensures !AllDigits(url[st..e]) {
            assert url[st..e][0] == url[st];
          }
        }
        IdFrom(url, marker, p + 1)
  }

  /** `match.group(1)`: the digits of the leftmost match, or None when there is none. */
  function FindId(url: String, marker: String): (r: Option<String>)
    ensures r.Some? ==> |r.value| > 0 && AllDigits(r.value)
    ensures r.Some? ==> exists p, e :: IdMatch(url, marker, p, e) && r.value == url[p + |marker|..e]
    ensures r.None? <==> forall p, e :: !IdMatch(url, marker, p, e)
  {
    match IdFrom(url, marker, 0)
    case Some((p, e)) => Some(url[p + |marker|..e])
    case None => None
  }

  /** A URL that begins with the marker and a run of digits gives back those digits. */
  lemma IdOfPath(marker: String, digits: String, rest: String)
    requires |digits| > 0 && AllDigits(digits)
    requires rest == [] || !IsDigit(rest[0])
    ensures FindId(marker + digits + rest, marker) == Some(digits)
  {
    var url := marker + digits + rest;
    var st := |marker|;
    var e := st + |digits|;
    assert url[..st] == marker;
    assert url[st..e] == digits;
    assert e < |url| ==> url[e] == rest[0];
    SalaryScan.DigitRunEndAt(url, st, e);
  }

  /** A URL that has the marker and a run of digits at its end, and the marker nowhere before, gives back those digits. */
  lemma IdAfterPrefix(prefix: String, marker: String, digits: String)
    requires |digits| > 0 && AllDigits(digits)
    requires forall q :: 0 <= q < |prefix| ==> !At(prefix + marker + digits, q, marker)
    ensures FindId(prefix + marker + digits, marker) == Some(digits)
  {
    var url := prefix + marker + digits;
    var p := |prefix|;
    var st := p + |marker|;
    assert url[p..st] == marker;
    assert url[st..] == digits;
    assert IdMatch(url, marker, p, |url|);
    var r := IdFrom(url, marker, 0);
    assert r.Some? && r.value.0 == p;
    var e := r.value.1;
    assert e == |url| && url[st..e] == digits;
  }
}
