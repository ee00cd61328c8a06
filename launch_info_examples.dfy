/**
 * The launch record of the repository's unit tests, and what the model of
 * `extract_launch_info` and `get_next_launch` is proved to make of it.
 */
module LaunchInfoExamples {
  import opened Wrappers
  import opened Text
  import opened LaunchInfo

  /** Electron from LC-1 at Mahia, one agency, launch 5 of the year and 15 overall. */
  const TestLaunch := Launch(
    Str("2024-06-01T12:00:00Z"), Str("Electron"), Str("Test Mission"), Str("A test mission"),
    [Agency("NASA", Some("NASA"))], Str("LC-1"), Str("Mahia Peninsula"), Number(5), Number(15))

  /** "Rocket Lab is launching Electron next from LC-1 (Mahia Peninsula).", then the break. */
  const TestLead := "Rocket Lab is launching " + "Electron" + " next from " + "LC-1" + " (" + "Mahia Peninsula" + ").  \n\n"

  lemma TestLeadSentence()
    ensures LeadSentence(TestLaunch) == TestLead
  {
    assert Render(TestLaunch.rocketName) == "Electron";
    assert Render(TestLaunch.padName) == "LC-1";
    assert Render(TestLaunch.padLocationName) == "Mahia Peninsula";
  }

  lemma TestAgencyInfo()
    ensures AgencyInfo(TestLaunch.agencies) == "NASA (NASA)"
  {
    var agencies := TestLaunch.agencies;
    AgencyInfoDropsFinalComma(agencies);
    assert Pieces(agencies) == Pieces([]) + AgencyPiece(agencies[0]);
    assert Pieces(agencies) == "NASA (NASA),";
  }

  /** A 200 response holding the test launch produces the message about it. */
  lemma TestMessage(formatTime: TimeFormatter)
    requires formatTime(TestLaunch.windowStart).Some?
    ensures Extract(Response(200, [TestLaunch]), formatTime)
            == Found(Message(TestLaunch, formatTime(TestLaunch.windowStart).value, "NASA (NASA)"))
  {
    TestAgencyInfo();
  }

  /** "They are launching Test Mission for NASA (NASA).", then the break. */
  const TestAgencySentence := "They are launching " + "Test Mission" + " " + "for " + "NASA (NASA)" + ".  \n\n"

  lemma TestSingleAgency()
    ensures SingleAgencySentence(TestLaunch, "NASA (NASA)") == TestAgencySentence
  {
    assert Render(TestLaunch.missionName) == "Test Mission";
  }

  /**
   * A 200 response holding the test launch yields a message that opens with
   * the rocket, pad and location and names the single agency with "for",
   * whatever time sentence the formatter produces.
   */
  lemma TestExtraction(formatTime: TimeFormatter)
    requires formatTime(TestLaunch.windowStart).Some?
    ensures var r := Extract(Response(200, [TestLaunch]), formatTime);
            r.Found? && TestLead + formatTime(TestLaunch.windowStart).value + TestAgencySentence <= r.text
  {
    var time := formatTime(TestLaunch.windowStart).value;
    var message := Message(TestLaunch, time, "NASA (NASA)");
    TestMessage(formatTime);
    MessageSingleAgency(TestLaunch, time, "NASA (NASA)");
    assert LeadSentence(TestLaunch) + time + SingleAgencySentence(TestLaunch, "NASA (NASA)") <= message;
    TestLeadSentence();
    TestSingleAgency();
  }

  /**
   * `get_next_launch("Electron", "10")` against an API that answers the
   * test launch: the message is returned unchanged.
   */
  lemma TestNextLaunch(api: Api, formatTime: TimeFormatter)
    requires api(Request(Endpoint, QueryParams(Some("Electron"), Some("10")))) == Some(Response(200, [TestLaunch]))
    requires formatTime(TestLaunch.windowStart).Some?
    ensures var r := NextLaunch(Some("Electron"), Some("10"), api, formatTime);
            r.Some? && TestLead + formatTime(TestLaunch.windowStart).value + TestAgencySentence <= r.value
  {
    TestExtraction(formatTime);
  }

  /** With no launch on record the reply says so, naming the rocket and the site code. */
  lemma EmptyScheduleFallback(api: Api, formatTime: TimeFormatter)
    requires api(Request(Endpoint, QueryParams(Some("Electron"), Some("10")))) == Some(Response(200, []))
    ensures NextLaunch(Some("Electron"), Some("10"), api, formatTime)
            == Some(NoLaunchPrefix + "for " + "Electron" + " at " + "10" + " at the moment  \n")
  {
    assert Extract(Response(200, []), formatTime) == NoLaunch;
    assert Truthy(Some("Electron")) && Truthy(Some("10"));
  }
}
