/**
 * Character classes, ASCII case folding and the small string operations
 * that LaunchBot.py borrows from Python's `re` module and `str` type.
 */
module Text {
  import opened Wrappers

  /** What `\s` matches in a `str` pattern: the characters of Python's `str.isspace`. */
  predicate IsSpace(c: char)
  {
    c == ' ' || '\t' <= c <= '\r' || '\U{1c}' <= c <= '\U{1f}' || c == '\U{85}' || c == '\U{a0}'
    || c == '\U{1680}' || '\U{2000}' <= c <= '\U{200a}' || c == '\U{2028}' || c == '\U{2029}'
    || c == '\U{202f}' || c == '\U{205f}' || c == '\U{3000}'
  }

  /** What `\d` matches, restricted to the ASCII digits. */
  predicate IsDigit(c: char)
  {
    '0' <= c <= '9'
  }

  function Lower(c: char): char
  {
    if 'A' <= c <= 'Z' then (c as int + 32) as char else c
  }

  function Upper(c: char): char
  {
    if 'a' <= c <= 'z' then (c as int - 32) as char else c
  }

  function LowerAll(t: string): (r: string)
    ensures |r| == |t| && forall k :: 0 <= k < |t| ==> r[k] == Lower(t[k])
  {
    seq(|t|, k requires 0 <= k < |t| => Lower(t[k]))
  }

  /** Python's `str.capitalize` on ASCII text: first character upper case, the rest lower case. */
  function Capitalize(t: string): (r: string)
    ensures |r| == |t|
    ensures t != [] ==> r[0] == Upper(t[0]) && forall k :: 0 < k < |t| ==> r[k] == Lower(t[k])
  {
    if t == [] then [] else [Upper(t[0])] + LowerAll(t[1..])
  }

  /** The literal `w` occurs at offset `i` of `s` under `re.IGNORECASE` (ASCII folding). */
  predicate HasAt(s: string, i: nat, w: string)
  {
    i + |w| <= |s| && forall k :: 0 <= k < |w| ==> Lower(s[i + k]) == Lower(w[k])
  }

  /** What occurs at offset `i + j` of `s` is what occurs at offset `j` of the suffix from `i`. */
  lemma HasAtDrop(s: string, i: nat, j: nat, w: string)
    requires i <= |s|
    ensures HasAt(s, i + j, w) == HasAt(s[i..], j, w)
  {
    if i + j + |w| <= |s| {
      assert s[i + j .. i + j + |w|] == s[i..][j .. j + |w|];
    }
  }

  /**
   * A word whose first letter is upper case and the rest lower case, matched
   * case-insensitively, capitalises back to itself.
   */
  lemma CapitalizeHit(s: string, i: nat, w: string)
    requires HasAt(s, i, w) && w != []
    requires 'A' <= w[0] <= 'Z' && forall k :: 0 < k < |w| ==> 'a' <= w[k] <= 'z'
    ensures Capitalize(s[i .. i + |w|]) == w
  {
    var t := s[i .. i + |w|];
    assert Lower(t[0]) == Lower(w[0]);
    forall k | 0 <= k < |w| ensures Capitalize(t)[k] == w[k] {
      assert Lower(t[k]) == Lower(w[k]) by { assert t[k] == s[i + k]; }
    }
  }

  predicate EndsWith(s: string, suffix: string)
  {
    |suffix| <= |s| && s[|s| - |suffix|..] == suffix
  }

  /** A prefix of `s` stays a prefix when text is appended to `s`. */
  lemma PrefixAppend(p: string, s: string, t: string)
    requires p <= s
    ensures p <= s + t
  {
    assert (s + t)[..|s|] == s;
  }

  lemma EndsWithAppend(s: string, t: string)
    ensures EndsWith(s + t, t)
  {
    assert (s + t)[|s|..] == t;
  }

  /** The last two pieces of a text built left to right are a suffix of it. */
  lemma EndsWithLastTwo(s: string, t: string, u: string)
    ensures EndsWith(s + t + u, t + u)
  {
    assert (s + t + u)[|s|..] == t + u;
  }

  /** Python's `str.rstrip(chars)`: drop trailing characters that belong to `chars`. */
  function RStrip(s: string, chars: set<char>): (r: string)
    ensures r <= s
    ensures forall k :: |r| <= k < |s| ==> s[k] in chars
    ensures r == [] || r[|r| - 1] !in chars
  {
    if s != [] && s[|s| - 1] in chars then RStrip(s[..|s| - 1], chars) else s
  }

  /** Stripping a text whose last character alone belongs to `chars` removes just that character. */
  lemma RStripOne(s: string, chars: set<char>)
    requires |s| >= 2 && s[|s| - 1] in chars && s[|s| - 2] !in chars
    ensures RStrip(s, chars) == s[..|s| - 1]
  {
    var t := s[..|s| - 1];
    assert t[|t| - 1] == s[|s| - 2];
  }

  /** Every character is an ASCII digit. */
  predicate AllDigits(t: string)
  {
    forall k :: 0 <= k < |t| ==> IsDigit(t[k])
  }

  /** The number a string of decimal digits denotes, most significant digit first. */
  function DigitsValue(t: string): nat
    requires AllDigits(t)
  {
    if t == [] then 0 else DigitsValue(t[..|t| - 1]) * 10 + (t[|t| - 1] as int - '0' as int)
  }

  /**
   * Python's `str(n)` for an integer: a '-' exactly when `n` is negative,
   * then the digits of `|n|` without a leading zero.
   */
  function DecimalString(n: int): (r: string)
    ensures r != []
    ensures (r[0] == '-') <==> n < 0
    ensures var digits := if n < 0 then r[1..] else r;
            digits != [] && AllDigits(digits) && DigitsValue(digits) == (if n < 0 then -n else n)
            && (digits[0] == '0' ==> digits == "0")
    decreases if n < 0 then 1 - n else n
  {
    if n < 0 then "-" + DecimalString(-n)
    else if n < 10 then [(48 + n) as char]
    else
      var front := DecimalString(n / 10);
      var r := front + [(48 + n % 10) as char];
      assert r[..|r| - 1] == front;
      r
  }
}
