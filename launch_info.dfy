/**
 * Launch lookup of LaunchBot.py: the query sent to the launch-schedule
 * API, `extract_launch_info` (which turns the response into a message, or
 * None when there is no launch) and the "nothing scheduled" fallback of
 * `get_next_launch`.
 *
 * The HTTP client and JSON decoding are not modelled: a response is the
 * record below, already projected onto the fields the bot reads. The time
 * conversion `convert_time` is a parameter of type `TimeFormatter`.
 */
module LaunchInfo {
  import opened Wrappers
  import opened Text

  /**
   * A JSON value as an f-string renders it: a string, an integer, `null`
   * (Python None, rendered "None") or the `{}` default that `.get(key, {})`
   * returns for a missing count (rendered "{}").
   */
  datatype Field = Str(s: string) | Number(n: int) | Null | EmptyObject

  /**
   * The field as an f-string shows it: a string as itself, an integer as
   * its decimal digits (with '-' when negative), None as "None" and the
   * empty default as "{}".
   */
  function Render(f: Field): (r: string)
    ensures f.Str? ==> r == f.s
    ensures f.Number? ==> r != [] && ((r[0] == '-') <==> f.n < 0)
    ensures f.Number? ==> var digits := if f.n < 0 then r[1..] else r;
                          digits != [] && AllDigits(digits) && DigitsValue(digits) == (if f.n < 0 then -f.n else f.n)
                          && (digits[0] == '0' ==> digits == "0")
    ensures f.Null? ==> r == "None"
    ensures f.EmptyObject? ==> r == "{}"
  {
    match f
    case Str(s) => s
    case Number(n) => DecimalString(n)
    case Null => "None"
    case EmptyObject => "{}"
  }

  /** One entry of `mission.agencies`; `abbrev` is None when the key is absent or null. */
  datatype Agency = Agency(name: string, abbrev: Option<string>)

  /** `results[i]` of the response, projected onto the fields `extract_launch_info` reads. */
  datatype Launch = Launch(
    windowStart: Field,
    rocketName: Field,
    missionName: Field,
    missionDescription: Field,
    agencies: seq<Agency>,
    padName: Field,
    padLocationName: Field,
    attemptsThisYear: Field,
    attemptsOverall: Field)

  /** The HTTP status and the `results` list (an absent list is the empty list). */
  datatype Response = Response(status: int, results: seq<Launch>)

  /** `convert_time`: the time sentence for a window start, or None when it raises. */
  type TimeFormatter = Field -> Option<string>

  /** Python truthiness of an optional string: present and non-empty. */
  predicate Truthy(o: Option<string>)
  {
    o.Some? && o.value != ""
  }

  // ---------------------------------------------------------------------
  // The request
  // ---------------------------------------------------------------------

  const Endpoint := "https://ll.thespacedevs.com/2.2.0/launch/upcoming/"

  /** What `requests.get(url, params)` is asked for. */
  datatype Request = Request(url: string, params: seq<(string, string)>)

  /** The API: a response, or None when `requests.get` raises. */
  type Api = Request -> Option<Response>

  /**
   * The query parameters as `requests` sends them: the fixed filters, then
   * the rocket and location filters, each dropped when its value is None.
   */
  function QueryParams(rocket: Option<string>, location: Option<string>): (r: seq<(string, string)>)
    ensures |r| >= 4 && r[..4] == [("hide_recent_previous", "true"), ("include_suborbital", "true"), ("limit", "1"), ("lsp__id", "147")]
    ensures forall v :: ("rocket__configuration__name", v) in r <==> rocket == Some(v)
    ensures forall v :: ("location__ids", v) in r <==> location == Some(v)
    ensures |r| == 4 + (if rocket.Some? then 1 else 0) + (if location.Some? then 1 else 0)
  {
    [("hide_recent_previous", "true"), ("include_suborbital", "true"), ("limit", "1"), ("lsp__id", "147")]
    + (if rocket.Some? then [("rocket__configuration__name", rocket.value)] else [])
    + (if location.Some? then [("location__ids", location.value)] else [])
  }

  // ---------------------------------------------------------------------
  // The agency list
  // ---------------------------------------------------------------------

  /** What one agency adds to `agencies_info`: `name (abbrev),` or `name,`. */
  function AgencyPiece(a: Agency): string
  {
    if Truthy(a.abbrev) then a.name + " (" + a.abbrev.value + ")," else a.name + ","
  }

  /** The pieces of all agencies, in order, before the final `rstrip`. */
  function Pieces(agencies: seq<Agency>): string
  {
    if agencies == [] then "" else Pieces(agencies[..|agencies| - 1]) + AgencyPiece(agencies[|agencies| - 1])
  }

  const StripChars: set<char> := {',', ' '}

  /**
   * `agencies_info` once the loop is done and `rstrip(", ")` has been
   * applied: the pieces with every trailing ',' and ' ' removed, and no
   * other character; empty without agencies.
   */
  function AgencyInfo(agencies: seq<Agency>): (r: string)
    ensures r <= Pieces(agencies)
    ensures forall k :: |r| <= k < |Pieces(agencies)| ==> Pieces(agencies)[k] in StripChars
    ensures r == [] || r[|r| - 1] !in StripChars
    ensures agencies == [] ==> r == ""
  {
    RStrip(Pieces(agencies), StripChars)
  }

  /** The piece of an agency with an abbreviation, or with a name not ending in ',' or ' ', ends in one comma. */
  lemma AgencyPieceEnding(a: Agency)
    requires Truthy(a.abbrev) || (a.name != "" && a.name[|a.name| - 1] !in StripChars)
    ensures var piece := AgencyPiece(a);
            |piece| >= 2 && piece[|piece| - 1] == ',' && piece[|piece| - 2] !in StripChars
  {
    var piece := AgencyPiece(a);
    if Truthy(a.abbrev) {
      var body := a.name + " (" + a.abbrev.value + ")";
      assert piece == body + ",";
      assert body[|body| - 1] == ')';
    } else {
      assert piece == a.name + ",";
    }
  }

  /**
   * When the last agency has an abbreviation, or a name that does not end in
   * ',' or ' ', only the final comma is stripped: the agencies stay joined by
   * commas, as in "NASA (NASA),ESA".
   */
  lemma AgencyInfoDropsFinalComma(agencies: seq<Agency>)
    requires agencies != []
    requires var last := agencies[|agencies| - 1];
             Truthy(last.abbrev) || (last.name != "" && last.name[|last.name| - 1] !in StripChars)
    ensures AgencyInfo(agencies) + "," == Pieces(agencies)
  {
    var p := Pieces(agencies);
    var piece := AgencyPiece(agencies[|agencies| - 1]);
    var before := Pieces(agencies[..|agencies| - 1]);
    assert p == before + piece;
    AgencyPieceEnding(agencies[|agencies| - 1]);
    assert p[|p| - 1] == piece[|piece| - 1] && p[|p| - 2] == piece[|piece| - 2];
    RStripOne(p, StripChars);
    assert p[..|p| - 1] + "," == p;
  }

  // ---------------------------------------------------------------------
  // The message
  // ---------------------------------------------------------------------

  function LeadSentence(l: Launch): string
  {
    "Rocket Lab is launching " + Render(l.rocketName) + " next from " + Render(l.padName)
    + " (" + Render(l.padLocationName) + ").  \n\n"
  }

  function CountSentence(l: Launch): string
  {
    "This is launch #" + Render(l.attemptsThisYear) + " this year, and launch #"
    + Render(l.attemptsOverall) + " overall.  \n\n"
  }

  /** The opening of the agency sentence, up to the wording that depends on the number of agencies. */
  function AgencyOpening(l: Launch): string
  {
    "They are launching " + Render(l.missionName) + " "
  }

  /** "for" with exactly one agency, "a rideshare mission for " (then a second space) otherwise. */
  function AgencySentence(l: Launch, agencyInfo: string): string
  {
    AgencyOpening(l) + (if |l.agencies| == 1 then "for" else "a rideshare mission for ") + " " + agencyInfo + ".  \n\n"
  }

  /** The agency sentence when exactly one agency is listed. */
  function SingleAgencySentence(l: Launch, agencyInfo: string): string
  {
    AgencyOpening(l) + "for " + agencyInfo + ".  \n\n"
  }

  /** The f-string of `extract_launch_info`, given the time sentence and `agencies_info`. */
  function Message(l: Launch, timeSentence: string, agencyInfo: string): string
  {
    LeadSentence(l) + timeSentence + AgencySentence(l, agencyInfo)
    + DescriptionSentence(l) + CountSentence(l)
  }

  /** The description sentence that follows the agency sentence. */
  function DescriptionSentence(l: Launch): string
  {
    "The mission is stated as follows: " + Render(l.missionDescription) + "  \n\n"
  }

  /** The message opens with the rocket, pad and pad location, and closes with the two launch counts. */
  lemma MessageFrame(l: Launch, timeSentence: string, agencyInfo: string)
    ensures LeadSentence(l) <= Message(l, timeSentence, agencyInfo)
    ensures EndsWith(Message(l, timeSentence, agencyInfo), CountSentence(l))
  {
    var lead := LeadSentence(l);
    var withTime := lead + timeSentence;
    var withAgencies := withTime + AgencySentence(l, agencyInfo);
    var withDescription := withAgencies + DescriptionSentence(l);
    assert Message(l, timeSentence, agencyInfo) == withDescription + CountSentence(l);
    PrefixAppend(lead, lead, timeSentence);
    PrefixAppend(lead, withTime, AgencySentence(l, agencyInfo));
    PrefixAppend(lead, withAgencies, DescriptionSentence(l));
    PrefixAppend(lead, withDescription, CountSentence(l));
    EndsWithAppend(withDescription, CountSentence(l));
  }

  /**
   * With one agency the agency sentence is the singular one; otherwise it
   * differs from it right after the opening ('a' of "a rideshare" against
   * 'f' of "for").
   */
  lemma AgencySentenceWording(l: Launch, agencyInfo: string)
    ensures var k := |AgencyOpening(l)|;
            k < |SingleAgencySentence(l, agencyInfo)| && SingleAgencySentence(l, agencyInfo)[k] == 'f'
    ensures |l.agencies| == 1 ==> AgencySentence(l, agencyInfo) == SingleAgencySentence(l, agencyInfo)
    ensures var k := |AgencyOpening(l)|;
            |l.agencies| != 1 ==> k < |AgencySentence(l, agencyInfo)| && AgencySentence(l, agencyInfo)[k] == 'a'
  {
    var head := AgencyOpening(l);
    assert SingleAgencySentence(l, agencyInfo) == head + ("for " + agencyInfo + ".  \n\n");
    if |l.agencies| != 1 {
      assert AgencySentence(l, agencyInfo) == head + ("a rideshare mission for " + " " + agencyInfo + ".  \n\n");
    }
  }

  /**
   * The agency sentence written out: "for" and one space with exactly one
   * agency; otherwise "a rideshare mission for " and the f-string's own
   * space, so two spaces before the agencies (also with no agency at all).
   */
  lemma AgencySentences(l: Launch, agencyInfo: string)
    ensures |l.agencies| == 1 ==>
              AgencySentence(l, agencyInfo)
              == "They are launching " + Render(l.missionName) + " for " + agencyInfo + ".  \n\n"
    ensures |l.agencies| != 1 ==>
              AgencySentence(l, agencyInfo)
              == "They are launching " + Render(l.missionName) + " a rideshare mission for  " + agencyInfo + ".  \n\n"
  {
    var mission := Render(l.missionName);
    if |l.agencies| == 1 {
      assert "They are launching " + mission + " " + "for" + " " == "They are launching " + mission + " for ";
    } else {
      assert "They are launching " + mission + " " + "a rideshare mission for " + " "
             == "They are launching " + mission + " a rideshare mission for  ";
    }
  }

  /** The singular "for" wording appears exactly when one agency is listed. */
  lemma MessageSingleAgency(l: Launch, timeSentence: string, agencyInfo: string)
    ensures |l.agencies| == 1 <==>
            LeadSentence(l) + timeSentence + SingleAgencySentence(l, agencyInfo) <= Message(l, timeSentence, agencyInfo)
  {
    var r := Message(l, timeSentence, agencyInfo);
    var a := LeadSentence(l) + timeSentence;
    var b := AgencySentence(l, agencyInfo);
    var single := SingleAgencySentence(l, agencyInfo);
    var withDescription := a + b + DescriptionSentence(l);
    assert r == withDescription + CountSentence(l);
    PrefixAppend(a + b, a + b, DescriptionSentence(l));
    PrefixAppend(a + b, withDescription, CountSentence(l));
    AgencySentenceWording(l, agencyInfo);
    var k := |AgencyOpening(l)|;
    if |l.agencies| != 1 {
      assert r[|a| + k] == (a + b)[|a| + k] == b[k];
      assert (a + single)[|a| + k] == single[k];
    }
  }

  /** The message of the first launch, or None from `convert_time` raising. */
  datatype Extraction = Found(text: string) | NoLaunch | Raised

  /**
   * `extract_launch_info`: no launch when the status is not 200 (the `if`
   * has no `else`, so the function falls off its end) or there are no
   * results; otherwise the message about `results[0]`.
   */
  function Extract(response: Response, formatTime: TimeFormatter): (r: Extraction)
    ensures r == NoLaunch <==> response.status != 200 || response.results == []
    ensures r == Raised <==>
              response.status == 200 && response.results != [] && formatTime(response.results[0].windowStart).None?
    ensures r.Found? ==> LeadSentence(response.results[0]) <= r.text
  {
    if response.status != 200 || response.results == [] then NoLaunch
    else
      var launch := response.results[0];
      match formatTime(launch.windowStart)
      case None => Raised
      case Some(time) => Found(Message(launch, time, AgencyInfo(launch.agencies)))
  }

  /** Only the first result matters: the other launches of the response are never read. */
  lemma ExtractReadsFirstLaunch(response: Response, formatTime: TimeFormatter)
    requires response.results != []
    ensures Extract(response, formatTime) == Extract(response.(results := [response.results[0]]), formatTime)
  {
  }

  /** `extract_launch_info` with its agency loop. */
  method ExtractLaunchInfo(response: Response, formatTime: TimeFormatter) returns (r: Extraction)
    ensures r == Extract(response, formatTime)
  {
    if response.status != 200 || response.results == [] {
      return NoLaunch;
    }
    var launch := response.results[0];
    var agencies := launch.agencies;
    var agenciesInfo := "";
    var i := 0;
    while i < |agencies|
      invariant 0 <= i <= |agencies|
      invariant agenciesInfo == Pieces(agencies[..i])
    {
      var agency := agencies[i];
      if Truthy(agency.abbrev) {
        agenciesInfo := agenciesInfo + agency.name + " (" + agency.abbrev.value + "),";
      } else {
        agenciesInfo := agenciesInfo + agency.name + ",";
      }
      assert agencies[..i + 1][..i] == agencies[..i];
      i := i + 1;
    }
    assert agencies[..i] == agencies;
    agenciesInfo := RStrip(agenciesInfo, StripChars);
    match formatTime(launch.windowStart)
    case None =>
      r := Raised;
    case Some(time) =>
      r := Found(Message(launch, time, agenciesInfo));
  }

  // ---------------------------------------------------------------------
  // get_next_launch
  // ---------------------------------------------------------------------

  /**
   * The sentence sent when no launch is found, chosen by which of rocket and
   * location are truthy. The location is interpolated as given: the site
   * code, not a place name.
   */
  function Fallback(rocket: Option<string>, location: Option<string>): (r: string)
    ensures NoLaunchPrefix <= r
  {
    if Truthy(rocket) && !Truthy(location) then
      NoLaunchPrefix + "for " + rocket.value + " at the moment  \n"
    else if Truthy(location) && !Truthy(rocket) then
      NoLaunchPrefix + "at " + location.value + " at the moment  \n"
    else if Truthy(rocket) && Truthy(location) then
      NoLaunchPrefix + "for " + rocket.value + " at " + location.value + " at the moment  \n"
    else
      NoLaunchPrefix + "at the moment.  \n"
  }

  /**
   * The fallback names the rocket ("for <rocket> at ...") exactly when one
   * was asked about, and is the general sentence when neither a rocket nor a
   * site was.
   */
  lemma FallbackNamesRocket(rocket: Option<string>, location: Option<string>)
    ensures Truthy(rocket) ==> NoLaunchPrefix + "for " + rocket.value + " at " <= Fallback(rocket, location)
    ensures !Truthy(rocket) ==> NoLaunchPrefix + "at " <= Fallback(rocket, location)
    ensures !Truthy(rocket) && !Truthy(location) ==> Fallback(rocket, location) == NoLaunchPrefix + "at the moment.  \n"
  {
    var r := Fallback(rocket, location);
    if Truthy(rocket) {
      var named := NoLaunchPrefix + "for " + rocket.value + " at ";
      if Truthy(location) {
        assert r == named + location.value + " at the moment  \n";
        PrefixAppend(named, named, location.value);
        PrefixAppend(named, named + location.value, " at the moment  \n");
      } else {
        assert " at the moment  \n" == " at " + "the moment  \n";
        assert r == named + "the moment  \n";
        PrefixAppend(named, named, "the moment  \n");
      }
    } else {
      var head := NoLaunchPrefix + "at ";
      if Truthy(location) {
        assert r == head + location.value + " at the moment  \n";
        PrefixAppend(head, head, location.value);
        PrefixAppend(head, head + location.value, " at the moment  \n");
      } else {
        assert r == head + "the moment.  \n";
        PrefixAppend(head, head, "the moment.  \n");
      }
    }
  }

  /** Whenever a site was asked about, the fallback ends with its code. */
  lemma FallbackEndsWithSite(rocket: Option<string>, location: Option<string>)
    ensures Truthy(location) ==> EndsWith(Fallback(rocket, location), location.value + " at the moment  \n")
  {
    if Truthy(location) {
      var head := if Truthy(rocket) then NoLaunchPrefix + "for " + rocket.value + " at " else NoLaunchPrefix + "at ";
      assert Fallback(rocket, location) == head + location.value + " at the moment  \n";
      EndsWithLastTwo(head, location.value, " at the moment  \n");
    }
  }

  /** The four sentences of the fallback, written out, chosen by which of rocket and site are truthy. */
  lemma FallbackSentences(rocket: Option<string>, location: Option<string>)
    ensures Truthy(rocket) && !Truthy(location) ==>
              Fallback(rocket, location)
              == "Rocketlab doesn't have any official launches scheduled for " + rocket.value + " at the moment  \n"
    ensures Truthy(location) && !Truthy(rocket) ==>
              Fallback(rocket, location)
              == "Rocketlab doesn't have any official launches scheduled at " + location.value + " at the moment  \n"
    ensures Truthy(rocket) && Truthy(location) ==>
              Fallback(rocket, location)
              == "Rocketlab doesn't have any official launches scheduled for " + rocket.value + " at "
                 + location.value + " at the moment  \n"
    ensures !Truthy(rocket) && !Truthy(location) ==>
              Fallback(rocket, location) == "Rocketlab doesn't have any official launches scheduled at the moment.  \n"
  {
    assert NoLaunchPrefix + "for " == "Rocketlab doesn't have any official launches scheduled for ";
    assert NoLaunchPrefix + "at " == "Rocketlab doesn't have any official launches scheduled at ";
    assert NoLaunchPrefix + "at the moment.  \n" == "Rocketlab doesn't have any official launches scheduled at the moment.  \n";
  }

  const NoLaunchPrefix := "Rocketlab doesn't have any official launches scheduled "

  /**
   * `get_next_launch`: the message, the fallback when there is no launch, or
   * None when anything raised (the request, or `convert_time`).
   */
  function NextLaunch(rocket: Option<string>, location: Option<string>, api: Api, formatTime: TimeFormatter): (r: Option<string>)
    ensures r.None? <==> (match api(Request(Endpoint, QueryParams(rocket, location)))
                          case None => true
                          case Some(response) => Extract(response, formatTime) == Raised)
    ensures forall response, text ::
              (api(Request(Endpoint, QueryParams(rocket, location))) == Some(response)
               && Extract(response, formatTime) == Found(text)) ==> r == Some(text)
    ensures forall response ::
              (api(Request(Endpoint, QueryParams(rocket, location))) == Some(response)
               && Extract(response, formatTime) == NoLaunch) ==> r == Some(Fallback(rocket, location))
  {
    match api(Request(Endpoint, QueryParams(rocket, location)))
    case None => None
    case Some(response) =>
      match Extract(response, formatTime)
      case Raised => None
      case NoLaunch => Some(Fallback(rocket, location))
      case Found(text) => Some(text)
  }
}
