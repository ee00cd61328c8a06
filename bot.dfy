/**
 * The stream loop of LaunchBot.py and the module-level state it mutates:
 * the list `comments_replied_to` and the file `exit_handler` writes.
 *
 * `Step` and `Steps` give the effect of one comment and of a run of
 * comments on that state; the class `LaunchBot` performs them in place.
 * The outside world is a parameter: each `Turn` carries the comment the
 * stream delivered, the launch-schedule API as it answers during that
 * comment, and whether `comment.reply` succeeds.
 */
module Bot {
  import opened Wrappers
  import opened Text
  import opened Matcher
  import opened LaunchInfo
  import opened Ledger

  /** A forum comment as the bot reads it. */
  datatype Comment = Comment(id: string, body: string)

  /** One comment from the stream, with the answers of the API and of `comment.reply`. */
  datatype Turn = Turn(comment: Comment, api: Api, replyAccepted: bool)

  const Signature := "Bleep Bloop, I'm a bot."

  /** What handling one comment did. */
  datatype Outcome =
    | AlreadyReplied                    // the id is in the ledger
    | NotAQuestion                      // `commentPattern` does not match
    | LookupFailed                      // `get_next_launch` returned None
    | ReplyFailed(text: string)         // `comment.reply` raised
    | Replied(id: string, text: string) // the reply was posted

  /** `comments_replied_to` and the contents of `comments_replied_to.txt`. */
  datatype BotState = BotState(repliedTo: seq<string>, savedFile: Option<string>)

  /** The state after `exit_handler`: the file holds the ledger. */
  function Flushed(st: BotState): BotState
  {
    st.(savedFile := Some(Serialize(st.repliedTo)))
  }

  /** The reply the bot would post to `body`, or None when it would post nothing; it ends with the signature. */
  function ReplyFor(body: string, api: Api, formatTime: TimeFormatter): (r: Option<string>)
    ensures r.Some? ==> EndsWith(r.value, Signature)
  {
    match MatchComment(body)
    case None => None
    case Some(intent) =>
      match NextLaunch(intent.rocket, intent.location, api, formatTime)
      case None => None
      case Some(info) =>
        EndsWithAppend(info, Signature);
        Some(info + Signature)
  }

  /**
   * One iteration of the stream loop. A comment is answered exactly when its
   * id is not in the ledger, it asks the question, the lookup succeeds and
   * the reply is accepted; its id then joins the ledger and nothing else
   * changes. A failed lookup or reply leaves the ledger as it was and saves
   * it to the file; every other case changes nothing.
   */
  function Step(st: BotState, turn: Turn, formatTime: TimeFormatter): (r: (BotState, Outcome))
    ensures r.1.AlreadyReplied? <==> turn.comment.id in st.repliedTo
    ensures r.1.NotAQuestion? <==> turn.comment.id !in st.repliedTo && MatchComment(turn.comment.body).None?
    ensures r.1.LookupFailed? <==>
      turn.comment.id !in st.repliedTo && MatchComment(turn.comment.body).Some?
      && ReplyFor(turn.comment.body, turn.api, formatTime).None?
    ensures r.1.ReplyFailed? <==>
      turn.comment.id !in st.repliedTo && !turn.replyAccepted
      && ReplyFor(turn.comment.body, turn.api, formatTime).Some?
    ensures r.1.Replied? <==>
      turn.comment.id !in st.repliedTo && turn.replyAccepted
      && ReplyFor(turn.comment.body, turn.api, formatTime).Some?
    ensures (r.1.ReplyFailed? || r.1.Replied?) ==>
      r.1.text == ReplyFor(turn.comment.body, turn.api, formatTime).value && EndsWith(r.1.text, Signature)
    ensures r.1.Replied? ==> r.1.id == turn.comment.id && r.0 == st.(repliedTo := st.repliedTo + [turn.comment.id])
    ensures (r.1.LookupFailed? || r.1.ReplyFailed?) ==> r.0 == Flushed(st)
    ensures (r.1.AlreadyReplied? || r.1.NotAQuestion?) ==> r.0 == st
  {
    var comment := turn.comment;
    if comment.id in st.repliedTo then (st, AlreadyReplied)
    else if MatchComment(comment.body).None? then (st, NotAQuestion)
    else
      match ReplyFor(comment.body, turn.api, formatTime)
      case None =>
        // get_next_launch saves the ledger and returns None; the `+=` that
        // follows raises, and the handler saves the ledger again.
        (Flushed(st), LookupFailed)
      case Some(text) =>
        if !turn.replyAccepted then (Flushed(st), ReplyFailed(text))
        else (st.(repliedTo := st.repliedTo + [comment.id]), Replied(comment.id, text))
  }

  /** The stream loop over the comments delivered so far, in delivery order. */
  function Steps(st: BotState, turns: seq<Turn>, formatTime: TimeFormatter): (BotState, seq<Outcome>)
    decreases |turns|
  {
    if turns == [] then (st, [])
    else
      var (mid, outcomes) := Steps(st, turns[..|turns| - 1], formatTime);
      var (next, outcome) := Step(mid, turns[|turns| - 1], formatTime);
      (next, outcomes + [outcome])
  }

  /** The ids of the comments that were answered, in order. */
  function RepliedIds(outcomes: seq<Outcome>): seq<string>
  {
    if outcomes == [] then []
    else
      var last := outcomes[|outcomes| - 1];
      RepliedIds(outcomes[..|outcomes| - 1]) + (if last.Replied? then [last.id] else [])
  }

  predicate Distinct(ids: seq<string>)
  {
    forall i, j :: 0 <= i < j < |ids| ==> ids[i] != ids[j]
  }

  /**
   * Over any run of the loop, every answered comment's id joins the ledger,
   * no id is answered twice, and no id already in the ledger is answered.
   */
  lemma {:induction false} StepsReplyOnce(st: BotState, turns: seq<Turn>, formatTime: TimeFormatter)
    ensures var (end, outcomes) := Steps(st, turns, formatTime);
            end.repliedTo == st.repliedTo + RepliedIds(outcomes)
            && Distinct(RepliedIds(outcomes))
            && forall id :: id in RepliedIds(outcomes) ==> id !in st.repliedTo
    decreases |turns|
  {
    if turns != [] {
      var init := turns[..|turns| - 1];
      StepsReplyOnce(st, init, formatTime);
      var (mid, outcomes) := Steps(st, init, formatTime);
      var (next, outcome) := Step(mid, turns[|turns| - 1], formatTime);
      assert Steps(st, turns, formatTime) == (next, outcomes + [outcome]);
      var all := outcomes + [outcome];
      assert all[..|all| - 1] == outcomes;
      var ids := RepliedIds(outcomes);
      if outcome.Replied? {
        assert RepliedIds(all) == ids + [outcome.id];
        assert outcome.id !in mid.repliedTo;
        assert forall id :: id in ids ==> id in mid.repliedTo;
      } else {
        assert RepliedIds(all) == ids;
      }
    }
  }

  /** Ids the file format can hold stay that way through any run whose comments have such ids. */
  lemma {:induction false} StepsKeepValidIds(st: BotState, turns: seq<Turn>, formatTime: TimeFormatter)
    requires forall id :: id in st.repliedTo ==> ValidId(id)
    requires forall i :: 0 <= i < |turns| ==> ValidId(turns[i].comment.id)
    ensures forall id :: id in Steps(st, turns, formatTime).0.repliedTo ==> ValidId(id)
    decreases |turns|
  {
    if turns != [] {
      var init := turns[..|turns| - 1];
      StepsKeepValidIds(st, init, formatTime);
    }
  }

  /**
   * Replaying comments after a shutdown that saved the ledger and a restart
   * that loaded it again never answers an id a second time: the replies of
   * both runs together have distinct ids.
   */
  lemma RepliesOnceAcrossRestart(file: Option<string>, first: seq<Turn>, second: seq<Turn>, formatTime: TimeFormatter)
    requires forall i :: 0 <= i < |first| ==> ValidId(first[i].comment.id)
    ensures var (end1, outcomes1) := Steps(BotState(Load(file), file), first, formatTime);
            var saved := Some(Serialize(end1.repliedTo));
            var (end2, outcomes2) := Steps(BotState(Load(saved), saved), second, formatTime);
            Distinct(RepliedIds(outcomes1) + RepliedIds(outcomes2))
  {
    var st1 := BotState(Load(file), file);
    var (end1, outcomes1) := Steps(st1, first, formatTime);
    StepsReplyOnce(st1, first, formatTime);
    StepsKeepValidIds(st1, first, formatTime);
    var saved := Some(Serialize(end1.repliedTo));
    LoadAfterSave(end1.repliedTo);
    var st2 := BotState(Load(saved), saved);
    var (end2, outcomes2) := Steps(st2, second, formatTime);
    StepsReplyOnce(st2, second, formatTime);
    var ids1, ids2 := RepliedIds(outcomes1), RepliedIds(outcomes2);
    assert forall id :: id in ids1 ==> id in end1.repliedTo;
    var all := ids1 + ids2;
    forall i, j | 0 <= i < j < |all| ensures all[i] != all[j] {
      if j < |ids1| {
        assert all[i] == ids1[i] && all[j] == ids1[j];
      } else if i >= |ids1| {
        assert all[i] == ids2[i - |ids1|] && all[j] == ids2[j - |ids1|];
      } else {
        assert all[i] == ids1[i] && all[j] == ids2[j - |ids1|];
        assert all[i] in end1.repliedTo;
      }
    }
  }

  /** The module-level state of LaunchBot.py and the code that changes it. */
  class LaunchBot {
    var repliedTo: seq<string>
    var savedFile: Option<string>

    /** Start-up: load the ledger from the file, or start empty when there is none. */
    constructor (file: Option<string>)
      ensures repliedTo == Load(file) && savedFile == file
    {
      repliedTo := Load(file);
      savedFile := file;
    }

    function State(): BotState
      reads this
    {
      BotState(repliedTo, savedFile)
    }

    /** `exit_handler`: write every id followed by a newline. */
    method ExitHandler()
      modifies this
      ensures repliedTo == old(repliedTo)
      ensures savedFile == Some(Serialize(repliedTo))
    {
      var ids := repliedTo;
      var text := "";
      var i := 0;
      while i < |ids|
        invariant 0 <= i <= |ids|
        invariant text == Serialize(ids[..i])
        invariant repliedTo == ids
      {
        SerializeAppend(ids[..i], ids[i]);
        assert ids[..i + 1] == ids[..i] + [ids[i]];
        text := text + ids[i] + "\n";
        i := i + 1;
      }
      assert ids[..i] == ids;
      savedFile := Some(text);
    }

    /** `get_next_launch`: on any exception it saves the ledger and returns None. */
    method GetNextLaunch(rocket: Option<string>, location: Option<string>, api: Api, formatTime: TimeFormatter)
      returns (info: Option<string>)
      modifies this
      ensures info == NextLaunch(rocket, location, api, formatTime)
      ensures State() == if info.None? then Flushed(old(State())) else old(State())
    {
      var response := api(Request(Endpoint, QueryParams(rocket, location)));
      if response.None? {
        ExitHandler();
        return None;
      }
      var launchInfo := ExtractLaunchInfo(response.value, formatTime);
      match launchInfo
      case Raised =>
        ExitHandler();
        info := None;
      case NoLaunch =>
        info := Some(Fallback(rocket, location));
      case Found(text) =>
        info := Some(text);
    }

    /** The body of the stream loop for one comment. */
    method HandleComment(turn: Turn, formatTime: TimeFormatter) returns (outcome: Outcome)
      modifies this
      ensures (State(), outcome) == Step(old(State()), turn, formatTime)
    {
      var comment := turn.comment;
      if comment.id in repliedTo {
        return AlreadyReplied;
      }
      var intent := MatchComment(comment.body);
      if intent.None? {
        return NotAQuestion;
      }
      var launchInfo := GetNextLaunch(intent.value.rocket, intent.value.location, turn.api, formatTime);
      if launchInfo.None? {
        // `None += str` raises; the handler saves the ledger again.
        ExitHandler();
        return LookupFailed;
      }
      var text := launchInfo.value + Signature;
      if !turn.replyAccepted {
        ExitHandler();
        return ReplyFailed(text);
      }
      repliedTo := repliedTo + [comment.id];
      outcome := Replied(comment.id, text);
    }

    /** The stream loop: handle the delivered comments in order. */
    method ProcessStream(turns: seq<Turn>, formatTime: TimeFormatter) returns (outcomes: seq<Outcome>)
      modifies this
      ensures (State(), outcomes) == Steps(old(State()), turns, formatTime)
    {
      outcomes := [];
      var i := 0;
      while i < |turns|
        invariant 0 <= i <= |turns|
        invariant (State(), outcomes) == Steps(old(State()), turns[..i], formatTime)
      {
        var outcome := HandleComment(turns[i], formatTime);
        assert turns[..i + 1][..i] == turns[..i];
        outcomes := outcomes + [outcome];
        i := i + 1;
      }
      assert turns[..i] == turns;
    }
  }
}
