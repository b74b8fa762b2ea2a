/**
 * `s.match(re)` for a case-insensitive regular expression that is an
 * alternation of literal words, optionally framed by `\b`: the leftmost
 * position where some alternative matches and, at that position, the first
 * alternative in the order written.
 */
module LiteralSearch {

  import opened Options
  import opened Text

  /** `\b` at index `i`: exactly one of the characters on either side is a word character. */
  predicate WordBoundary(s: string, i: nat)
  {
    (0 < i <= |s| && IsWordChar(s[i - 1])) != (i < |s| && IsWordChar(s[i]))
  }

  /** The alternative `pat` matches at `p`, and, when `framed`, sits between two `\b`. */
  predicate MatchesAt(s: string, p: nat, pat: string, framed: bool)
  {
    OccursAt(s, p, pat) && (framed ==> WordBoundary(s, p) && WordBoundary(s, p + |pat|))
  }

  /** Where a match starts and which alternative produced it. */
  datatype Hit = Hit(pos: nat, alt: nat)

  /** The first alternative, from index `k` on, that matches at `p`. */
  function FirstAltAt(s: string, p: nat, alts: seq<string>, framed: bool, k: nat): (r: Option<nat>)
    ensures r.Some? ==> k <= r.value < |alts| && MatchesAt(s, p, alts[r.value], framed)
    ensures r.Some? ==> forall j :: k <= j < r.value ==> !MatchesAt(s, p, alts[j], framed)
    ensures r.None? ==> forall j :: k <= j < |alts| ==> !MatchesAt(s, p, alts[j], framed)
    decreases |alts| - k
  {
    if k >= |alts| then None
    else if MatchesAt(s, p, alts[k], framed) then Some(k)
    else FirstAltAt(s, p, alts, framed, k + 1)
  }

  /** The leftmost hit at or after `from`. */
  function SearchFrom(s: string, alts: seq<string>, framed: bool, from: nat): (r: Option<Hit>)
    ensures r.Some? ==> from <= r.value.pos && r.value.alt < |alts|
    ensures r.Some? ==> MatchesAt(s, r.value.pos, alts[r.value.alt], framed)
    ensures r.Some? ==> forall j :: 0 <= j < r.value.alt ==> !MatchesAt(s, r.value.pos, alts[j], framed)
    ensures r.Some? ==> forall q: nat, j :: from <= q < r.value.pos && 0 <= j < |alts| ==> !MatchesAt(s, q, alts[j], framed)
    ensures r.None? ==> forall q: nat, j :: from <= q && 0 <= j < |alts| ==> !MatchesAt(s, q, alts[j], framed)
    decreases |s| + 1 - from
  {
    if from > |s| then None
    else match FirstAltAt(s, from, alts, framed, 0)
      case Some(k) => Some(Hit(from, k))
      case None => SearchFrom(s, alts, framed, from + 1)
  }

  /** `s.match(re)`. */
  function Search(s: string, alts: seq<string>, framed: bool): (r: Option<Hit>)
    ensures r.None? <==> forall q: nat, j :: 0 <= j < |alts| ==> !MatchesAt(s, q, alts[j], framed)
  {
    SearchFrom(s, alts, framed, 0)
  }

  /** `match[0]`: the matched text, in the message's own casing. */
  function Matched(s: string, alts: seq<string>, h: Hit): (m: string)
    requires h.alt < |alts| && OccursAt(s, h.pos, alts[h.alt])
    ensures |m| == |alts[h.alt]|
    ensures forall j :: 0 <= j < |m| ==> SameLetter(m[j], alts[h.alt][j])
    ensures m == s[h.pos..h.pos + |m|]
  {
    s[h.pos..h.pos + |alts[h.alt]|]
  }

  /** The hit is determined: a match with nothing before it and no earlier alternative at its position is the one found. */
  lemma SearchFinds(s: string, alts: seq<string>, framed: bool, h: Hit)
    requires h.alt < |alts| && MatchesAt(s, h.pos, alts[h.alt], framed)
    requires forall j :: 0 <= j < h.alt ==> !MatchesAt(s, h.pos, alts[j], framed)
    requires forall q: nat, j :: q < h.pos && 0 <= j < |alts| ==> !MatchesAt(s, q, alts[j], framed)
    ensures Search(s, alts, framed) == Some(h)
  {
    var r := Search(s, alts, framed);
    assert r.Some?;
    assert r.value.pos == h.pos;
  }

  /** An unframed match survives any text written around the message. */
  lemma UnframedSurvivesContext(s: string, a: string, b: string, alts: seq<string>)
    requires Search(s, alts, false).Some?
    ensures Search(a + s + b, alts, false).Some?
  {
    var h := Search(s, alts, false).value;
    var t := a + s + b;
    var pat := alts[h.alt];
    assert OccursAt(t, |a| + h.pos, pat) by {
      forall j | 0 <= j < |pat| ensures SameLetter(t[|a| + h.pos + j], pat[j]) {
        assert t[|a| + h.pos + j] == s[h.pos + j];
      }
    }
    assert MatchesAt(t, |a| + h.pos, pat, false);
  }

  /** A framed match survives text appended after a non-word character. */
  lemma FramedSurvivesSeparatedSuffix(s: string, b: string, alts: seq<string>)
    requires Search(s, alts, true).Some?
    requires b == [] || !IsWordChar(b[0])
    ensures Search(s + b, alts, true).Some?
  {
    var h := Search(s, alts, true).value;
    var t := s + b;
    var pat := alts[h.alt];
    var e := h.pos + |pat|;
    assert OccursAt(t, h.pos, pat) by {
      forall j | 0 <= j < |pat| ensures SameLetter(t[h.pos + j], pat[j]) {
        assert t[h.pos + j] == s[h.pos + j];
      }
    }
    assert WordBoundary(t, h.pos) by {
      if 0 < h.pos { assert t[h.pos - 1] == s[h.pos - 1]; }
      if h.pos < |s| { assert t[h.pos] == s[h.pos]; }
    }
    assert WordBoundary(t, e) by {
      if 0 < e { assert t[e - 1] == s[e - 1]; }
      if e < |s| { assert t[e] == s[e]; } else if b != [] { assert t[e] == b[0]; }
    }
    assert MatchesAt(t, h.pos, pat, true);
  }
}
