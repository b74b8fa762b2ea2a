/**
 * ASCII character classes and the literal, case-insensitive searches the
 * message filters are built from. JavaScript compares case-insensitively by
 * case folding; this model folds ASCII letters only (see README, "Left out").
 */
module Text {

  import opened Options

  predicate IsLower(c: char) { 'a' <= c <= 'z' }

  predicate IsUpper(c: char) { 'A' <= c <= 'Z' }

  predicate IsDigit(c: char) { '0' <= c <= '9' }

  /** `[0-9A-Za-z]` */
  predicate IsAlnum(c: char) { IsDigit(c) || IsLower(c) || IsUpper(c) }

  /** The characters `\w` and `\b` treat as word characters: `[A-Za-z0-9_]`. */
  predicate IsWordChar(c: char) { IsAlnum(c) || c == '_' }

  /** `toUpperCase` on one character, ASCII letters only. */
  function UpperChar(c: char): (u: char)
    ensures IsLower(c) ==> IsUpper(u) && u != c
    ensures !IsLower(c) ==> u == c
  {
    if IsLower(c) then (c as int - 32) as char else c
  }

  /** Case folding of one character, ASCII letters only. */
  function LowerChar(c: char): (l: char)
    ensures IsUpper(c) ==> IsLower(l) && l != c
    ensures !IsUpper(c) ==> l == c
  {
    if IsUpper(c) then (c as int + 32) as char else c
  }

  /** `String.prototype.toUpperCase`, character by character. */
  function Upper(s: string): (r: string)
    ensures |r| == |s|
    ensures forall i :: 0 <= i < |s| ==> r[i] == UpperChar(s[i])
  {
    seq(|s|, i requires 0 <= i < |s| => UpperChar(s[i]))
  }

  /** Case folding of a string, ASCII letters only. */
  function Lower(s: string): (r: string)
    ensures |r| == |s|
    ensures forall i :: 0 <= i < |s| ==> r[i] == LowerChar(s[i])
  {
    seq(|s|, i requires 0 <= i < |s| => LowerChar(s[i]))
  }

  /** The UTF-16 code units of one character: two for a character beyond the Basic Multilingual Plane. */
  function Utf16Units(c: char): (n: nat)
    ensures 1 <= n <= 2
  {
    if c < '\U{10000}' then 1 else 2
  }

  /** `String.prototype.length`: the number of UTF-16 code units, not of characters. */
  function Utf16Length(s: string): (n: nat)
    ensures |s| <= n <= 2 * |s|
  {
    if s == [] then 0 else Utf16Length(s[..|s| - 1]) + Utf16Units(s[|s| - 1])
  }

  /** Within the Basic Multilingual Plane the two lengths agree. */
  lemma {:induction false} Utf16LengthOfBmp(s: string)
    requires forall i :: 0 <= i < |s| ==> s[i] < '\U{10000}'
    ensures Utf16Length(s) == |s|
  {
    if s != [] {
      Utf16LengthOfBmp(s[..|s| - 1]);
    }
  }

  /** Beyond it every character counts twice. */
  lemma {:induction false} Utf16LengthOfAstral(s: string)
    requires forall i :: 0 <= i < |s| ==> s[i] >= '\U{10000}'
    ensures Utf16Length(s) == 2 * |s|
  {
    if s != [] {
      Utf16LengthOfAstral(s[..|s| - 1]);
    }
  }

  /** Two characters are equal under the `i` flag of a regular expression. */
  predicate SameLetter(a: char, b: char) { LowerChar(a) == LowerChar(b) }

  /** The literal `pat` occurs in `s` at position `p`, ignoring case. */
  predicate OccursAt(s: string, p: nat, pat: string)
  {
    p + |pat| <= |s| && forall j :: 0 <= j < |pat| ==> SameLetter(s[p + j], pat[j])
  }

  /** What a case-insensitive match of a lower-case literal reads as, once folded: the literal itself. */
  lemma OccurrenceFolds(s: string, p: nat, pat: string)
    requires OccursAt(s, p, pat) && Lower(pat) == pat
    ensures Lower(s[p..p + |pat|]) == pat
  {
    forall j | 0 <= j < |pat| ensures Lower(s[p..p + |pat|])[j] == pat[j] {
      assert SameLetter(s[p + j], pat[j]);
      assert Lower(pat)[j] == pat[j];
    }
  }

  /** The literal `pat` occurs somewhere in `s`, ignoring case. */
  ghost predicate Occurs(s: string, pat: string)
  {
    exists p: nat :: OccursAt(s, p, pat)
  }

  /** The leftmost position at or after `from` where `pat` occurs, ignoring case. */
  function FindFrom(s: string, pat: string, from: nat): (r: Option<nat>)
    ensures r.Some? ==> from <= r.value && OccursAt(s, r.value, pat)
    ensures r.Some? ==> forall q: nat :: from <= q < r.value ==> !OccursAt(s, q, pat)
    ensures r.None? ==> forall q: nat :: from <= q ==> !OccursAt(s, q, pat)
    decreases |s| + 1 - from
  {
    if from + |pat| > |s| then None
    else if OccursAt(s, from, pat) then Some(from)
    else FindFrom(s, pat, from + 1)
  }

  /** Case-insensitive substring test, as `s.match(new RegExp(pat, 'i')) !== null` for a pattern without metacharacters. */
  function Contains(s: string, pat: string): (b: bool)
    ensures b <==> Occurs(s, pat)
  {
    FindFrom(s, pat, 0).Some?
  }

  /** Number of characters of `s` that belong to `cs` (the length of a global match of a character class). */
  function CountIn(s: string, cs: set<char>): (n: nat)
    ensures n <= |s|
  {
    if s == [] then 0 else (if s[0] in cs then 1 else 0) + CountIn(s[1..], cs)
  }

  lemma {:induction false} CountInAppend(a: string, b: string, cs: set<char>)
    ensures CountIn(a + b, cs) == CountIn(a, cs) + CountIn(b, cs)
  {
    if a != [] {
      assert (a + b)[1..] == a[1..] + b;
      CountInAppend(a[1..], b, cs);
    } else {
      assert a + b == b;
    }
  }

  /** Counting agrees with membership: the count is positive exactly when some character is in `cs`. */
  lemma {:induction false} CountInPositive(s: string, cs: set<char>)
    ensures CountIn(s, cs) > 0 <==> exists i :: 0 <= i < |s| && s[i] in cs
  {
    if s != [] {
      CountInPositive(s[1..], cs);
      if CountIn(s[1..], cs) > 0 {
        var i :| 0 <= i < |s[1..]| && s[1..][i] in cs;
        assert s[i + 1] in cs;
      }
      if s[0] !in cs && CountIn(s, cs) == 0 {
        forall i | 0 <= i < |s| ensures s[i] !in cs {
          if i > 0 { assert s[i] == s[1..][i - 1]; }
        }
      }
    }
  }
}
