/**
 * The comments of the repository's pattern tests, and what is proved about them.
 *
 * Facts about a literal text are proved one offset at a time: the lemmas
 * whose names start with `CQ`, `EQ` and `AQ` hold those facts for
 * `ComplexQuestion`, `ElectronQuestion` and `AreQuestion`, and the named
 * examples combine them.
 */
module MatcherExamples {
  import opened Wrappers
  import opened Text
  import opened Matcher

  // ---------------------------------------------------------------------
  // Comments that do not ask the question
  // ---------------------------------------------------------------------

  /** A text with no 'w' at offset `i` has no question starting there. */
  lemma NoQuestionWithoutW(s: string, i: nat)
    requires i < |s| ==> s[i] != 'w' && s[i] != 'W'
    ensures !QuestionAt(s, i)
  {
    if i + 4 <= |s| {
      assert Lower(s[i]) != Lower("when"[0]);
    }
  }

  /** A text with no 'l' anywhere has no question at all: "launch" is missing. */
  lemma NoQuestionWithoutL(s: string, i: nat)
    requires forall k :: 0 <= k < |s| ==> s[k] != 'l' && s[k] != 'L'
    ensures !QuestionAt(s, i)
  {
    forall q: nat ensures !LaunchAt(s, q) {
      if q < |s| {
        assert Lower(s[q]) != Lower("launch"[0]);
      }
    }
  }

  lemma AreTheyHasNoW()
    ensures forall k :: 0 <= k < |"are they launching?"| ==> "are they launching?"[k] != 'w' && "are they launching?"[k] != 'W'
  {
  }

  lemma AreTheyLaunchingIsNotAQuestion()
    ensures MatchComment("are they launching?") == None
  {
    var s := "are they launching?";
    AreTheyHasNoW();
    forall i | 0 <= i <= |s| ensures !QuestionAt(s, i) {
      NoQuestionWithoutW(s, i);
    }
  }

  lemma IsThereHasNoW()
    ensures forall k :: 0 <= k < |"Is there a launch"| ==> "Is there a launch"[k] != 'w' && "Is there a launch"[k] != 'W'
  {
  }

  lemma IsThereALaunchIsNotAQuestion()
    ensures MatchComment("Is there a launch") == None
  {
    var s := "Is there a launch";
    IsThereHasNoW();
    forall i | 0 <= i <= |s| ensures !QuestionAt(s, i) {
      NoQuestionWithoutW(s, i);
    }
  }

  lemma WhensTheTimeHasNoL()
    ensures forall k :: 0 <= k < |"When's the time?"| ==> "When's the time?"[k] != 'l' && "When's the time?"[k] != 'L'
  {
  }

  lemma WhensTheTimeIsNotAQuestion()
    ensures MatchComment("When's the time?") == None
  {
    var s := "When's the time?";
    WhensTheTimeHasNoL();
    forall i | 0 <= i <= |s| ensures !QuestionAt(s, i) {
      NoQuestionWithoutL(s, i);
    }
  }

  // ---------------------------------------------------------------------
  // "launch complex 3": the lookahead of `commentPattern` refuses it
  // ---------------------------------------------------------------------

  const ComplexQuestion := "When is launch complex 3 being built?"

  lemma ComplexQuestionHasOneW()
    ensures |ComplexQuestion| == 37
    ensures forall k :: 1 <= k < |ComplexQuestion| ==> ComplexQuestion[k] != 'w' && ComplexQuestion[k] != 'W'
  {
  }

  /** A spaced "is" at `p`, character by character, is the first connector alternative. */
  lemma SpacedIsConnector(s: string, p: nat)
    requires p + 4 <= |s| && s[p] == ' ' && s[p + 1] == 'i' && s[p + 2] == 's' && s[p + 3] == ' '
    ensures ConnectorEnd(s, p) == Some(p + 4)
  {
    assert HasAt(s, p + 1, "is");
    assert SpacedWordAt(s, p, "is");
  }

  lemma CQConnector() ensures ConnectorEnd(ComplexQuestion, 4) == Some(8) {
    var s := ComplexQuestion;
    assert s[4] == ' ';
    assert s[5] == 'i';
    assert s[6] == 's';
    assert s[7] == ' ';
    SpacedIsConnector(s, 4);
  }

  lemma CQLookahead() ensures !LaunchAt(ComplexQuestion, 8) {
    assert ComplexDigitAt(ComplexQuestion, 14);
  }

  lemma CQToken8() ensures TokenEnd(ComplexQuestion, 8) == Some(15) {
    var s := ComplexQuestion;
    assert s[14] == ' ';
    assert FirstSpace(s, 14) == Some(14);
    assert s[13] == 'h';
    assert FirstSpace(s, 13) == Some(14);
    assert s[12] == 'c';
    assert FirstSpace(s, 12) == Some(14);
    assert s[11] == 'n';
    assert FirstSpace(s, 11) == Some(14);
    assert s[10] == 'u';
    assert FirstSpace(s, 10) == Some(14);
    assert s[9] == 'a';
    assert FirstSpace(s, 9) == Some(14);
    assert s[8] == 'l';
    assert FirstSpace(s, 8) == Some(14);
  }

  lemma CQToken15() ensures TokenEnd(ComplexQuestion, 15) == Some(23) {
    var s := ComplexQuestion;
    assert s[22] == ' ';
    assert FirstSpace(s, 22) == Some(22);
    assert s[21] == 'x';
    assert FirstSpace(s, 21) == Some(22);
    assert s[20] == 'e';
    assert FirstSpace(s, 20) == Some(22);
    assert s[19] == 'l';
    assert FirstSpace(s, 19) == Some(22);
    assert s[18] == 'p';
    assert FirstSpace(s, 18) == Some(22);
    assert s[17] == 'm';
    assert FirstSpace(s, 17) == Some(22);
    assert s[16] == 'o';
    assert FirstSpace(s, 16) == Some(22);
    assert s[15] == 'c';
    assert FirstSpace(s, 15) == Some(22);
  }

  lemma CQToken23() ensures TokenEnd(ComplexQuestion, 23) == Some(25) {
    var s := ComplexQuestion;
    assert s[24] == ' ';
    assert FirstSpace(s, 24) == Some(24);
    assert s[23] == '3';
    assert FirstSpace(s, 23) == Some(24);
  }

  lemma CQToken25() ensures TokenEnd(ComplexQuestion, 25) == Some(31) {
    var s := ComplexQuestion;
    assert s[30] == ' ';
    assert FirstSpace(s, 30) == Some(30);
    assert s[29] == 'g';
    assert FirstSpace(s, 29) == Some(30);
    assert s[28] == 'n';
    assert FirstSpace(s, 28) == Some(30);
    assert s[27] == 'i';
    assert FirstSpace(s, 27) == Some(30);
    assert s[26] == 'e';
    assert FirstSpace(s, 26) == Some(30);
    assert s[25] == 'b';
    assert FirstSpace(s, 25) == Some(30);
  }

  lemma CQNoLaunchLater()
    ensures !LaunchAt(ComplexQuestion, 15) && !LaunchAt(ComplexQuestion, 23)
    ensures !LaunchAt(ComplexQuestion, 25) && !LaunchAt(ComplexQuestion, 31)
  {
    var s := ComplexQuestion;
    assert Lower(s[15]) != Lower("launch"[0]);
    assert Lower(s[23]) != Lower("launch"[0]);
    assert Lower(s[25]) != Lower("launch"[0]);
    assert Lower(s[31]) != Lower("launch"[0]);
  }

  /** The lookahead refuses "launch complex 3", and no later token is "launch". */
  lemma ComplexQuestionNoMatchAtStart()
    ensures !MatchesAt(ComplexQuestion, 0)
  {
    var s := ComplexQuestion;
    CQConnector();
    CQLookahead();
    CQToken8();
    CQToken15();
    CQToken23();
    CQToken25();
    CQNoLaunchLater();
    assert !LaunchWithin(s, 31, 0);
    assert !LaunchWithin(s, 25, 1);
    assert !LaunchWithin(s, 23, 2);
    assert !LaunchWithin(s, 15, 3);
    assert !LaunchWithin(s, 8, 4);
  }

  lemma LaunchComplexIsNotAQuestion()
    ensures MatchComment(ComplexQuestion) == None
  {
    var s := ComplexQuestion;
    ComplexQuestionHasOneW();
    ComplexQuestionNoMatchAtStart();
    MatchesAtIff(s, 0);
    forall i | 1 <= i <= |s| ensures !QuestionAt(s, i) {
      NoQuestionWithoutW(s, i);
    }
  }

  // ---------------------------------------------------------------------
  // A question naming a rocket and a New Zealand site
  // ---------------------------------------------------------------------

  const ElectronQuestion := "When's Electron Launching from NZ?"

  lemma EQConnector() ensures ConnectorEnd(ElectronQuestion, 4) == Some(7) {
    assert ApostropheSAt(ElectronQuestion, 4);
  }

  lemma EQToken7() ensures TokenEnd(ElectronQuestion, 7) == Some(16) {
    var s := ElectronQuestion;
    assert s[15] == ' ';
    assert FirstSpace(s, 15) == Some(15);
    assert s[14] == 'n';
    assert FirstSpace(s, 14) == Some(15);
    assert s[13] == 'o';
    assert FirstSpace(s, 13) == Some(15);
    assert s[12] == 'r';
    assert FirstSpace(s, 12) == Some(15);
    assert s[11] == 't';
    assert FirstSpace(s, 11) == Some(15);
    assert s[10] == 'c';
    assert FirstSpace(s, 10) == Some(15);
    assert s[9] == 'e';
    assert FirstSpace(s, 9) == Some(15);
    assert s[8] == 'l';
    assert FirstSpace(s, 8) == Some(15);
    assert s[7] == 'E';
    assert FirstSpace(s, 7) == Some(15);
  }

  lemma EQLaunch() ensures LaunchAt(ElectronQuestion, 16) {
    var s := ElectronQuestion;
    assert HasAt(s, 16, "launch");
    assert !IsSpace(s[22]);
  }

  lemma EQNotLaunch() ensures !LaunchAt(ElectronQuestion, 7) {
    assert Lower(ElectronQuestion[7]) != Lower("launch"[0]);
  }

  /** The question starts at offset 0: "When", "'s ", one token, then "Launch". */
  lemma EQMatchesAtStart()
    ensures MatchesAt(ElectronQuestion, 0)
  {
    var s := ElectronQuestion;
    assert HasAt(s, 0, "when");
    EQConnector();
    EQToken7();
    EQLaunch();
    EQNotLaunch();
    assert LaunchWithin(s, 16, 3);
    assert LaunchWithin(s, 7, 4);
  }

  /** The character at `i` exists and folds to `c`. */
  predicate CharIs(s: string, i: nat, c: char)
  {
    i < |s| && Lower(s[i]) == c
  }

  /** A test on two characters at `j` that rules out every rocket name there. */
  predicate NoRocketStart(s: string, j: nat)
  {
    (CharIs(s, j, 'e') ==> !CharIs(s, j + 1, 'l'))
    && (CharIs(s, j, 'h') ==> !CharIs(s, j + 1, 'a'))
    && (CharIs(s, j, 'n') ==> !CharIs(s, j + 1, 'e'))
  }

  lemma NoRocketAt(s: string, j: nat)
    requires NoRocketStart(s, j)
    ensures RocketAt(s, j).None?
  {
    forall w | w in ["Electron", "Haste", "Neutron"] ensures !HasAt(s, j, w) {
      if j + |w| <= |s| {
        // the offset in `w` whose character the test rules out
        var k := if Lower(s[j]) != Lower(w[0]) then 0 else 1;
        assert Lower(s[j + k]) != Lower(w[k]);
      }
    }
  }

  lemma EQNoRocketBefore7() ensures forall j :: 0 <= j < 7 ==> RocketAt(ElectronQuestion, j).None? {
    forall j | 0 <= j < 7 ensures RocketAt(ElectronQuestion, j).None? {
      NoRocketAt(ElectronQuestion, j);
    }
  }

  lemma EQRocketAt7() ensures RocketAt(ElectronQuestion, 7) == Some(Electron) {
    assert HasAt(ElectronQuestion, 7, "Electron");
  }

  /** The first rocket name is "Electron", at offset 7. */
  lemma EQRocket()
    ensures FindRocket(ElectronQuestion, 0) == Some(RocketMatch(7, Electron))
  {
    EQNoRocketBefore7();
    EQRocketAt7();
    FindRocketFirst(ElectronQuestion, 0, 7, Electron);
  }

  /**
   * A test on a few characters around `j` that rules out every United States
   * name there: each name is excluded by one of its own characters.
   */
  predicate NoUSStart(s: string, j: nat)
  {
    (CharIs(s, j, 'u') ==> !CharIs(s, j + 1, 's') && !CharIs(s, j + 2, 'i'))
    && (CharIs(s, j, 'v') ==> !CharIs(s, j + 1, 'i'))
    && (CharIs(s, j, 'w') ==> !CharIs(s, j + 1, 'a'))
    && (CharIs(s, j, 'l') ==> !CharIs(s, j + 1, 'c') && !CharIs(s, j + 6, ' '))
    && (CharIs(s, j, 'm') ==> !CharIs(s, j + 1, 'a'))
  }

  lemma NoUSNameAt(s: string, j: nat)
    requires NoUSStart(s, j)
    ensures !NameAt(s, j, USNames)
  {
    forall w | w in USNames ensures !HasAt(s, j, w) {
      if j + |w| <= |s| {
        // the offset in `w` whose character the test rules out
        var k := if Lower(s[j]) != Lower(w[0]) then 0
                 else if w == "United States" then 2
                 else if w == "Launch Complex 2" then 6
                 else 1;
        assert Lower(s[j + k]) != Lower(w[k]);
      }
    }
  }

  /** A text that passes the test at every offset from `from` on mentions no United States name. */
  lemma NoUSNameFrom(s: string, from: nat)
    requires forall j :: from <= j <= |s| ==> NoUSStart(s, j)
    ensures !Mentions(s, from, USNames)
  {
    forall j | from <= j <= |s| ensures !NameAt(s, j, USNames) {
      NoUSNameAt(s, j);
    }
  }

  lemma EQNoUSStartBefore17() ensures forall j :: 0 <= j < 17 ==> NoUSStart(ElectronQuestion, j) {
  }

  lemma EQNoUSStartFrom17() ensures forall j :: 17 <= j <= |ElectronQuestion| ==> NoUSStart(ElectronQuestion, j) {
  }

  lemma EQNoUSName()
    ensures !Mentions(ElectronQuestion, 0, USNames)
  {
    EQNoUSStartBefore17();
    EQNoUSStartFrom17();
    NoUSNameFrom(ElectronQuestion, 0);
  }

  lemma EQQuestion() ensures FindQuestionFrom(ElectronQuestion, 0) == Some(0) {
    EQMatchesAtStart();
  }

  lemma EQRocketName() ensures InferRocket(ElectronQuestion, 0) == Some("Electron") {
    EQRocket();
  }

  lemma EQLocation() ensures InferLocation(ElectronQuestion, 0) == Some("10") {
    var s := ElectronQuestion;
    assert HasAt(s, 31, "NZ") && "NZ" in NZNames;
    assert NameAt(s, 31, NZNames);
    assert Mentions(s, 0, NZNames);
    EQNoUSName();
  }

  /** The repository's example "When's Electron Launching from NZ?" asks about Electron at Mahia. */
  lemma ElectronQuestionIntent()
    ensures MatchComment(ElectronQuestion) == Some(Intent(Some("Electron"), Some("10")))
  {
    EQQuestion();
    EQRocketName();
    EQLocation();
  }

  // ---------------------------------------------------------------------
  // A question with the "are" connector naming a United States site
  // ---------------------------------------------------------------------

  const AreQuestion := "When are they launching Electron from US?"

  /** A spaced "are" at `p`, character by character, is the connector, ending after its second space. */
  lemma SpacedAreConnector(s: string, p: nat)
    requires p + 5 <= |s| && s[p] == ' ' && s[p + 1] == 'a' && s[p + 2] == 'r' && s[p + 3] == 'e' && s[p + 4] == ' '
    ensures ConnectorEnd(s, p) == Some(p + 5)
  {
    ConnectorAlternatives(s, p);
    assert HasAt(s, p + 1, "are");
    assert SpacedWordAt(s, p, "are");
  }

  /** A run of non-whitespace characters from `p` up to a whitespace character at `q`. */
  lemma {:induction false} FirstSpaceAfterWord(s: string, p: nat, q: nat)
    requires p <= q < |s| && IsSpace(s[q])
    requires forall j :: p <= j < q ==> !IsSpace(s[j])
    ensures FirstSpace(s, p) == Some(q)
    decreases q - p
  {
    if p < q {
      FirstSpaceAfterWord(s, p + 1, q);
    }
  }

  lemma AQConnector() ensures ConnectorEnd(AreQuestion, 4) == Some(9) {
    var s := AreQuestion;
    assert s[4] == ' ';
    assert s[5] == 'a';
    assert s[6] == 'r';
    assert s[7] == 'e';
    assert s[8] == ' ';
    SpacedAreConnector(s, 4);
  }

  lemma AQToken9() ensures TokenEnd(AreQuestion, 9) == Some(14) {
    var s := AreQuestion;
    assert s[9] == 't' && s[10] == 'h' && s[11] == 'e' && s[12] == 'y' && s[13] == ' ';
    FirstSpaceAfterWord(s, 9, 13);
  }

  lemma AQLaunch() ensures LaunchAt(AreQuestion, 14) {
    var s := AreQuestion;
    assert HasAt(s, 14, "launch");
    assert !IsSpace(s[20]);
  }

  lemma AQNotLaunch() ensures !LaunchAt(AreQuestion, 9) {
    assert Lower(AreQuestion[9]) != Lower("launch"[0]);
  }

  /** The question starts at offset 0: "When", " are ", one token, then "launching". */
  lemma AQMatchesAtStart()
    ensures MatchesAt(AreQuestion, 0)
  {
    var s := AreQuestion;
    assert HasAt(s, 0, "when");
    AQConnector();
    AQToken9();
    AQLaunch();
    AQNotLaunch();
    assert LaunchWithin(s, 14, 3);
    assert LaunchWithin(s, 9, 4);
  }

  lemma AQQuestion() ensures FindQuestionFrom(AreQuestion, 0) == Some(0) {
    AQMatchesAtStart();
  }

  lemma AQNoRocketBefore24() ensures forall j :: 0 <= j < 24 ==> RocketAt(AreQuestion, j).None? {
    forall j | 0 <= j < 24 ensures RocketAt(AreQuestion, j).None? {
      NoRocketAt(AreQuestion, j);
    }
  }

  lemma AQRocketAt24() ensures RocketAt(AreQuestion, 24) == Some(Electron) {
    assert HasAt(AreQuestion, 24, "Electron");
  }

  lemma AQRocketName() ensures InferRocket(AreQuestion, 0) == Some("Electron") {
    AQNoRocketBefore24();
    AQRocketAt24();
    FindRocketFirst(AreQuestion, 0, 24, Electron);
  }

  /**
   * A test on a few characters around `j` that rules out every New Zealand
   * name there: each name is excluded by one of its own characters.
   */
  predicate NoNZStart(s: string, j: nat)
  {
    (CharIs(s, j, 'n') ==> !CharIs(s, j + 1, 'z') && !CharIs(s, j + 1, 'e'))
    && (CharIs(s, j, 'm') ==> !CharIs(s, j + 1, 'a'))
    && (CharIs(s, j, 'l') ==> !CharIs(s, j + 1, 'c') && !CharIs(s, j + 6, ' '))
  }

  lemma NoNZNameAt(s: string, j: nat)
    requires NoNZStart(s, j)
    ensures !NameAt(s, j, NZNames)
  {
    forall w | w in NZNames ensures !HasAt(s, j, w) {
      if j + |w| <= |s| {
        // the offset in `w` whose character the test rules out
        var k := if Lower(s[j]) != Lower(w[0]) then 0
                 else if w == "Launch Complex 1" then 6
                 else 1;
        assert Lower(s[j + k]) != Lower(w[k]);
      }
    }
  }

  /** A text that passes the test at every offset from `from` on mentions no New Zealand name. */
  lemma NoNZNameFrom(s: string, from: nat)
    requires forall j :: from <= j <= |s| ==> NoNZStart(s, j)
    ensures !Mentions(s, from, NZNames)
  {
    forall j | from <= j <= |s| ensures !NameAt(s, j, NZNames) {
      NoNZNameAt(s, j);
    }
  }

  lemma AQNoNZStartBefore20() ensures forall j :: 0 <= j < 20 ==> NoNZStart(AreQuestion, j) {
  }

  lemma AQNoNZStartFrom20() ensures forall j :: 20 <= j <= |AreQuestion| ==> NoNZStart(AreQuestion, j) {
  }

  lemma AQNoNZName()
    ensures !Mentions(AreQuestion, 0, NZNames)
  {
    AQNoNZStartBefore20();
    AQNoNZStartFrom20();
    NoNZNameFrom(AreQuestion, 0);
  }

  lemma AQLocation() ensures InferLocation(AreQuestion, 0) == Some("21") {
    var s := AreQuestion;
    assert HasAt(s, 38, "US") && "US" in USNames;
    assert NameAt(s, 38, USNames);
    assert Mentions(s, 0, USNames);
    AQNoNZName();
  }

  /** The repository's example "When are they launching Electron from US?" asks about Electron at Wallops. */
  lemma AreQuestionIntent()
    ensures MatchComment(AreQuestion) == Some(Intent(Some("Electron"), Some("21")))
  {
    AQQuestion();
    AQRocketName();
    AQLocation();
  }
}
