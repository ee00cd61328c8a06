/**
 * The comment-intent matcher of LaunchBot.py: the question pattern
 * `commentPattern`, the rocket pattern `rocketPattern`, the two location
 * patterns and the rule that turns their hits into an intent.
 *
 * The question pattern is given twice. `QuestionAt` says what the regular
 * expression means (an existential over every way of splitting the text
 * into its pieces); `MatchesAt` is a deterministic matcher. `MatchesAtIff`
 * proves that they agree, and `FindQuestionFrom` is the leftmost search
 * that `commentPattern.search` performs.
 */
module Matcher {
  import opened Wrappers
  import opened Text

  // ---------------------------------------------------------------------
  // commentPattern:  when(\sis\s|\sdoes\s|'s\s|\sare\s|\swill\s)(\S*\s){0,4}launch(?!\scomplex\s\d)
  // ---------------------------------------------------------------------

  /** `\s<w>\s` at offset `p`. */
  predicate SpacedWordAt(s: string, p: nat, w: string)
  {
    p + |w| + 2 <= |s| && IsSpace(s[p]) && HasAt(s, p + 1, w) && IsSpace(s[p + |w| + 1])
  }

  /** `'s\s` at offset `p`. */
  predicate ApostropheSAt(s: string, p: nat)
  {
    p + 3 <= |s| && HasAt(s, p, "'s") && IsSpace(s[p + 2])
  }

  /** The connector group matches `s[p..q]`, by any of its five alternatives. */
  ghost predicate Connector(s: string, p: nat, q: nat)
  {
    (SpacedWordAt(s, p, "is") && q == p + 4)
    || (SpacedWordAt(s, p, "does") && q == p + 6)
    || (ApostropheSAt(s, p) && q == p + 3)
    || (SpacedWordAt(s, p, "are") && q == p + 5)
    || (SpacedWordAt(s, p, "will") && q == p + 6)
  }

  /** The end of the connector at `p`, trying the alternatives in the pattern's order. */
  function ConnectorEnd(s: string, p: nat): (r: Option<nat>)
    ensures forall q: nat :: Connector(s, p, q) <==> r == Some(q)
  {
    ConnectorAlternatives(s, p);
    if SpacedWordAt(s, p, "is") then Some(p + 4)
    else if SpacedWordAt(s, p, "does") then Some(p + 6)
    else if ApostropheSAt(s, p) then Some(p + 3)
    else if SpacedWordAt(s, p, "are") then Some(p + 5)
    else if SpacedWordAt(s, p, "will") then Some(p + 6)
    else None
  }

  /** Facts that keep the five connector alternatives apart: their first characters differ. */
  lemma ConnectorAlternatives(s: string, p: nat)
    ensures SpacedWordAt(s, p, "is") ==> Lower(s[p + 1]) == 'i'
    ensures SpacedWordAt(s, p, "does") ==> Lower(s[p + 1]) == 'd'
    ensures SpacedWordAt(s, p, "are") ==> Lower(s[p + 1]) == 'a'
    ensures SpacedWordAt(s, p, "will") ==> Lower(s[p + 1]) == 'w'
    ensures ApostropheSAt(s, p) ==> s[p] == '\'' && !IsSpace(s[p])
  {
    assert "is"[0] == 'i' && "does"[0] == 'd' && "are"[0] == 'a' && "will"[0] == 'w' && "'s"[0] == '\'';
  }

  /** One repetition of `(\S*\s)`: non-whitespace characters, then one whitespace character. */
  ghost predicate IsToken(t: string)
  {
    |t| >= 1 && IsSpace(t[|t| - 1]) && forall j :: 0 <= j < |t| - 1 ==> !IsSpace(t[j])
  }

  /** `s[p..q]` splits into exactly `k` tokens. */
  ghost predicate Tokens(s: string, p: nat, q: nat, k: nat)
    decreases k
  {
    p <= q <= |s| &&
    if k == 0 then p == q
    else exists m: nat :: p < m <= q && IsToken(s[p..m]) && Tokens(s, m, q, k - 1)
  }

  /** The first whitespace character at or after `p`. */
  function FirstSpace(s: string, p: nat): (r: Option<nat>)
    decreases |s| - p
    ensures r.Some? ==> p <= r.value < |s| && IsSpace(s[r.value])
    ensures r.Some? ==> forall j :: p <= j < r.value ==> !IsSpace(s[j])
    ensures r.None? ==> forall j :: p <= j < |s| ==> !IsSpace(s[j])
  {
    if p >= |s| then None else if IsSpace(s[p]) then Some(p) else FirstSpace(s, p + 1)
  }

  /** Where one token that starts at `p` ends: just after the next whitespace character. */
  function TokenEnd(s: string, p: nat): (r: Option<nat>)
  {
    match FirstSpace(s, p)
    case None => None
    case Some(j) => Some(j + 1)
  }

  /** A token starting at `p` can only end where `TokenEnd` says. */
  lemma TokenEndUnique(s: string, p: nat, m: nat)
    requires p < m <= |s|
    ensures IsToken(s[p..m]) <==> TokenEnd(s, p) == Some(m)
  {
    var t := s[p..m];
    if IsToken(t) {
      assert IsSpace(s[m - 1]) by { assert t[|t| - 1] == s[m - 1]; }
      forall j | p <= j < m - 1 ensures !IsSpace(s[j]) { assert t[j - p] == s[j]; }
    }
    if TokenEnd(s, p) == Some(m) {
      assert IsSpace(t[|t| - 1]) by { assert t[|t| - 1] == s[m - 1]; }
      forall j | 0 <= j < |t| - 1 ensures !IsSpace(t[j]) { assert t[j] == s[p + j]; }
    }
  }

  /** `(?!\scomplex\s\d)` fails at `r`: the text there is whitespace, "complex", whitespace, digit. */
  predicate ComplexDigitAt(s: string, r: nat)
  {
    r + 10 <= |s| && IsSpace(s[r]) && HasAt(s, r + 1, "complex") && IsSpace(s[r + 8]) && IsDigit(s[r + 9])
  }

  /** `launch(?!\scomplex\s\d)` matches at `q`. */
  predicate LaunchAt(s: string, q: nat)
  {
    HasAt(s, q, "launch") && !ComplexDigitAt(s, q + 6)
  }

  /** `(\S*\s){0,n}launch(?!\scomplex\s\d)` matches from `p`, following the token ends. */
  predicate LaunchWithin(s: string, p: nat, n: nat)
    decreases n
  {
    LaunchAt(s, p) ||
    (n > 0 && match TokenEnd(s, p)
              case None => false
              case Some(m) => LaunchWithin(s, m, n - 1))
  }

  /** A match found by `LaunchWithin` is a match of the pattern: the tokens it skipped are witnesses. */
  lemma {:induction false} LaunchWithinSound(s: string, p: nat, n: nat) returns (q: nat, k: nat)
    requires p <= |s| && LaunchWithin(s, p, n)
    ensures k <= n && Tokens(s, p, q, k) && LaunchAt(s, q)
    decreases n
  {
    if LaunchAt(s, p) {
      q, k := p, 0;
    } else {
      var m := TokenEnd(s, p).value;
      TokenEndUnique(s, p, m);
      var k';
      q, k' := LaunchWithinSound(s, m, n - 1);
      k := k' + 1;
      assert p < m <= q && IsToken(s[p..m]) && Tokens(s, m, q, k - 1);
    }
  }

  /** Every way of matching the tokens and `launch` is found by `LaunchWithin`. */
  lemma {:induction false} LaunchWithinComplete(s: string, p: nat, n: nat, q: nat, k: nat)
    requires k <= n && Tokens(s, p, q, k) && LaunchAt(s, q)
    ensures LaunchWithin(s, p, n)
    decreases k
  {
    if k > 0 {
      var m: nat :| p < m <= q && IsToken(s[p..m]) && Tokens(s, m, q, k - 1);
      TokenEndUnique(s, p, m);
      LaunchWithinComplete(s, m, n - 1, q, k - 1);
    }
  }

  /** What `commentPattern` means at offset `i`: some way of matching the whole pattern there. */
  ghost predicate QuestionAt(s: string, i: nat)
  {
    HasAt(s, i, "when") &&
    exists p: nat, q: nat, k: nat :: Connector(s, i + 4, p) && k <= 4 && Tokens(s, p, q, k) && LaunchAt(s, q)
  }

  /** The deterministic matcher for `commentPattern` at offset `i`. */
  predicate MatchesAt(s: string, i: nat)
  {
    HasAt(s, i, "when") &&
    match ConnectorEnd(s, i + 4)
    case None => false
    case Some(p) => p <= |s| && LaunchWithin(s, p, 4)
  }

  lemma MatchesAtIff(s: string, i: nat)
    ensures MatchesAt(s, i) <==> QuestionAt(s, i)
  {
    if MatchesAt(s, i) {
      var p := ConnectorEnd(s, i + 4).value;
      var q, k := LaunchWithinSound(s, p, 4);
      assert Connector(s, i + 4, p);
    }
    if QuestionAt(s, i) {
      var p: nat, q: nat, k: nat :| Connector(s, i + 4, p) && k <= 4 && Tokens(s, p, q, k) && LaunchAt(s, q);
      LaunchWithinComplete(s, p, 4, q, k);
    }
  }

  /** `commentPattern.search(body, from)`: the offset of the leftmost match at or after `from`. */
  function FindQuestionFrom(s: string, from: nat): (r: Option<nat>)
    decreases |s| + 1 - from
    ensures r.Some? ==> from <= r.value <= |s| && QuestionAt(s, r.value)
    ensures r.Some? ==> forall j :: from <= j < r.value ==> !QuestionAt(s, j)
    ensures r.None? ==> forall j :: from <= j <= |s| ==> !QuestionAt(s, j)
  {
    if from > |s| then None
    else
      MatchesAtIff(s, from);
      if MatchesAt(s, from) then Some(from) else FindQuestionFrom(s, from + 1)
  }

  // ---------------------------------------------------------------------
  // rocketPattern:  Electron|Haste|Neutron
  // ---------------------------------------------------------------------

  datatype Rocket = Electron | Haste | Neutron

  /** The rocket's name as the API spells it, which is also its capitalised form. */
  function RocketName(r: Rocket): string
  {
    match r
    case Electron => "Electron"
    case Haste => "Haste"
    case Neutron => "Neutron"
  }

  /** The alternative of `rocketPattern` that matches at offset `j`, tried in the pattern's order. */
  function RocketAt(s: string, j: nat): Option<Rocket>
  {
    if HasAt(s, j, "Electron") then Some(Electron)
    else if HasAt(s, j, "Haste") then Some(Haste)
    else if HasAt(s, j, "Neutron") then Some(Neutron)
    else None
  }

  /** A match of `rocketPattern`: where it starts and which alternative matched. */
  datatype RocketMatch = RocketMatch(start: nat, rocket: Rocket)

  /** `rocketPattern.search(body, from)`: the first offset at or after `from` where a rocket name occurs. */
  function FindRocket(s: string, from: nat): Option<RocketMatch>
    decreases |s| + 1 - from
  {
    if from > |s| then None
    else match RocketAt(s, from)
      case Some(rocket) => Some(RocketMatch(from, rocket))
      case None => FindRocket(s, from + 1)
  }

  /** `FindRocket` finds the leftmost rocket name at or after `from`, and finds one whenever there is one. */
  lemma {:induction false} FindRocketLeftmost(s: string, from: nat)
    ensures var r := FindRocket(s, from);
            (r.Some? ==> from <= r.value.start <= |s| && RocketAt(s, r.value.start) == Some(r.value.rocket))
            && (r.Some? ==> forall j :: from <= j < r.value.start ==> RocketAt(s, j).None?)
            && (r.None? ==> forall j :: from <= j <= |s| ==> RocketAt(s, j).None?)
    decreases |s| + 1 - from
  {
    if from <= |s| && RocketAt(s, from).None? {
      FindRocketLeftmost(s, from + 1);
    }
  }

  /** Conversely, a rocket name with none before it, from `from` on, is what the search finds. */
  lemma FindRocketFirst(s: string, from: nat, start: nat, rocket: Rocket)
    requires from <= start <= |s| && RocketAt(s, start) == Some(rocket)
    requires forall j :: from <= j < start ==> RocketAt(s, j).None?
    ensures FindRocket(s, from) == Some(RocketMatch(start, rocket))
  {
    FindRocketLeftmost(s, from);
  }

  /**
   * `rocket_name_match.group().capitalize()`, or None without a match: the
   * rocket found first, by its own name (see `CapitalizedMatchIsName`).
   */
  function InferRocket(s: string, from: nat): (r: Option<string>)
    ensures r.Some? ==> r.value in {"Electron", "Haste", "Neutron"}
  {
    match FindRocket(s, from)
    case None => None
    case Some(m) => Some(RocketName(m.rocket))
  }

  /**
   * The matched text, whatever its case, capitalises to the name of the
   * rocket that matched: the group of `rocketPattern` that matched is that
   * name up to case.
   */
  lemma CapitalizedMatchIsName(s: string, j: nat)
    requires RocketAt(s, j).Some?
    ensures var name := RocketName(RocketAt(s, j).value);
            Capitalize(s[j .. j + |name|]) == name
  {
    var name := RocketName(RocketAt(s, j).value);
    CapitalizeHit(s, j, name);
  }

  lemma RocketAtDrop(s: string, i: nat, j: nat)
    requires i <= |s|
    ensures RocketAt(s, i + j) == RocketAt(s[i..], j)
  {
    HasAtDrop(s, i, j, "Electron");
    HasAtDrop(s, i, j, "Haste");
    HasAtDrop(s, i, j, "Neutron");
  }

  /** A rocket match moved `d` characters to the right. */
  function ShiftMatch(r: Option<RocketMatch>, d: nat): Option<RocketMatch>
  {
    match r
    case None => None
    case Some(m) => Some(m.(start := d + m.start))
  }

  /** Searching `s` from `i + from` finds what searching its suffix from `i` finds from `from`, moved by `i`. */
  lemma {:induction false} FindRocketDrop(s: string, i: nat, from: nat)
    requires i <= |s|
    ensures FindRocket(s, i + from) == ShiftMatch(FindRocket(s[i..], from), i)
    decreases |s| - i + 1 - from
  {
    var t := s[i..];
    if from > |t| {
      assert FindRocket(t, from) == None;
      assert FindRocket(s, i + from) == None;
    } else {
      RocketAtDrop(s, i, from);
      match RocketAt(t, from)
      case Some(rocket) =>
        assert FindRocket(t, from) == Some(RocketMatch(from, rocket));
        assert FindRocket(s, i + from) == Some(RocketMatch(i + from, rocket));
      case None =>
        FindRocketDrop(s, i, from + 1);
        assert FindRocket(t, from) == FindRocket(t, from + 1);
        assert FindRocket(s, i + from) == FindRocket(s, i + (from + 1));
    }
  }

  /** The rocket inferred from offset `i` depends only on the text from `i` on. */
  lemma InferRocketFromSuffix(s: string, i: nat)
    requires i <= |s|
    ensures InferRocket(s, i) == InferRocket(s[i..], 0)
  {
    FindRocketDrop(s, i, 0);
  }

  // ---------------------------------------------------------------------
  // locationNZPattern and locationUSPattern: plain alternations of literals
  // ---------------------------------------------------------------------

  const NZNames: seq<string> := ["NZ", "New Zealand", "Mahia", "Launch Complex 1", "LC1"]
  const USNames: seq<string> := ["US", "United States", "Virginia", "USA", "Wallops", "Launch Complex 2", "LC2", "MARS"]

  /** Some alternative of the pattern `names` matches at offset `j`. */
  predicate NameAt(s: string, j: nat, names: seq<string>)
  {
    exists w :: w in names && HasAt(s, j, w)
  }

  /** `pattern.search(body, from)` for an alternation of literals. */
  function FindName(s: string, from: nat, names: seq<string>): Option<nat>
    decreases |s| + 1 - from
  {
    if from > |s| then None
    else if NameAt(s, from, names) then Some(from)
    else FindName(s, from + 1, names)
  }

  /** `FindName` finds the leftmost occurrence at or after `from`, and finds one whenever there is one. */
  lemma {:induction false} FindNameLeftmost(s: string, from: nat, names: seq<string>)
    ensures var r := FindName(s, from, names);
            (r.Some? ==> from <= r.value <= |s| && NameAt(s, r.value, names))
            && (r.Some? ==> forall j :: from <= j < r.value ==> !NameAt(s, j, names))
            && (r.None? ==> forall j :: from <= j <= |s| ==> !NameAt(s, j, names))
    decreases |s| + 1 - from
  {
    if from <= |s| && !NameAt(s, from, names) {
      FindNameLeftmost(s, from + 1, names);
    }
  }

  /** One of `names` occurs, case-insensitively, at or after `from`. */
  ghost predicate Mentions(s: string, from: nat, names: seq<string>)
  {
    exists j :: from <= j <= |s| && NameAt(s, j, names)
  }

  /**
   * The site code: "10" (Mahia) when only the New Zealand pattern hits, "21"
   * (Wallops) when only the United States pattern hits, and none when both
   * or neither hit.
   */
  function InferLocation(s: string, from: nat): (r: Option<string>)
    ensures r == Some("10") <==> Mentions(s, from, NZNames) && !Mentions(s, from, USNames)
    ensures r == Some("21") <==> Mentions(s, from, USNames) && !Mentions(s, from, NZNames)
    ensures r == None <==> (Mentions(s, from, NZNames) <==> Mentions(s, from, USNames))
  {
    FindNameLeftmost(s, from, NZNames);
    FindNameLeftmost(s, from, USNames);
    var nz := FindName(s, from, NZNames).Some?;
    var us := FindName(s, from, USNames).Some?;
    if nz && us then None
    else
      // `location_id` is set for New Zealand, then for the United States;
      // with both hits excluded, at most one of the two assignments runs.
      var afterNZ := if nz then Some("10") else None;
      if us then Some("21") else afterNZ
  }

  lemma NameAtDrop(s: string, i: nat, j: nat, names: seq<string>)
    requires i <= |s|
    ensures NameAt(s, i + j, names) == NameAt(s[i..], j, names)
  {
    forall w | w in names ensures HasAt(s, i + j, w) == HasAt(s[i..], j, w) {
      HasAtDrop(s, i, j, w);
    }
  }

  /** A search result moved `d` characters to the right. */
  function Shift(r: Option<nat>, d: nat): Option<nat>
  {
    match r
    case None => None
    case Some(j) => Some(d + j)
  }

  lemma {:induction false} FindNameDrop(s: string, i: nat, from: nat, names: seq<string>)
    requires i <= |s|
    ensures FindName(s, i + from, names) == Shift(FindName(s[i..], from, names), i)
    decreases |s| - i + 1 - from
  {
    var t := s[i..];
    if from > |t| {
      assert FindName(t, from, names) == None;
      assert FindName(s, i + from, names) == None;
    } else {
      NameAtDrop(s, i, from, names);
      if NameAt(t, from, names) {
        assert FindName(t, from, names) == Some(from);
        assert FindName(s, i + from, names) == Some(i + from);
      } else {
        FindNameDrop(s, i, from + 1, names);
        assert FindName(t, from, names) == FindName(t, from + 1, names);
        assert FindName(s, i + from, names) == FindName(s, i + (from + 1), names);
      }
    }
  }

  /** The location inferred from offset `i` depends only on the text from `i` on. */
  lemma InferLocationFromSuffix(s: string, i: nat)
    requires i <= |s|
    ensures InferLocation(s, i) == InferLocation(s[i..], 0)
  {
    FindNameDrop(s, i, 0, NZNames);
    FindNameDrop(s, i, 0, USNames);
  }

  // ---------------------------------------------------------------------
  // The intent of one comment (the body of the stream loop up to the lookup)
  // ---------------------------------------------------------------------

  /** The rocket and site code a question asks about; either may be absent. */
  datatype Intent = Intent(rocket: Option<string>, location: Option<string>)

  /**
   * A question yields the rocket and location found from the question's
   * start; text that is not a question yields nothing.
   */
  function MatchComment(body: string): (r: Option<Intent>)
    ensures r.None? <==> forall i :: 0 <= i <= |body| ==> !QuestionAt(body, i)
    ensures r.Some? ==> r.value.rocket in {None, Some("Electron"), Some("Haste"), Some("Neutron")}
    ensures r.Some? ==> r.value.location in {None, Some("10"), Some("21")}
  {
    match FindQuestionFrom(body, 0)
    case None => None
    case Some(start) => Some(Intent(InferRocket(body, start), InferLocation(body, start)))
  }

  /**
   * The intent depends only on the text from the question's start on: a
   * rocket or site named before the question is never picked up.
   */
  lemma IntentFromQuestionOn(body: string, start: nat)
    requires FindQuestionFrom(body, 0) == Some(start)
    ensures MatchComment(body) == Some(Intent(InferRocket(body[start..], 0), InferLocation(body[start..], 0)))
  {
    InferRocketFromSuffix(body, start);
    InferLocationFromSuffix(body, start);
  }
}
