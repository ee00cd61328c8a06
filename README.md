# LaunchBot in Dafny

LaunchBot is a forum bot. It watches a stream of comments. When a comment
asks when Rocket Lab launches next ("When is the next launch of Electron
from NZ?"), it infers which rocket and which launch site the comment means.
It then asks the Launch Library API for the next matching launch and
replies with a summary. The ids of the comments it has answered are kept in
a ledger, `comments_replied_to.txt`, so that no comment is answered twice.

This project models that core and proves properties of it:

- `text.dfy` (module `Text`): what the bot borrows from Python's `re`
  and `str`.
  - `\s` and `\d`.
  - Case-insensitive literal matching.
  - `str.capitalize` and `str.rstrip`.
  - `str(int)`.
- `matcher.dfy` (module `Matcher`): the comment-intent matcher.
  - The question pattern `commentPattern` is given twice. `QuestionAt` is
    what the regular expression means. `MatchesAt` is a deterministic
    matcher. The two are proved equal.
  - Its leftmost search.
  - The rocket search and the inferred rocket name.
  - The New Zealand and United States location searches.
  - The rule that drops the location when both sites are mentioned.
  - `MatchComment`: the whole intent of a comment.
- `launch_info.dfy` (module `LaunchInfo`): the lookup.
  - The query parameters.
  - `extract_launch_info` as a method with its agency loop, specified by
    the function `Extract`.
  - The message and its sentences.
  - The "nothing scheduled" fallback.
  - `get_next_launch` as `NextLaunch`.
- `ledger.dfy` (module `Ledger`): the ledger file format.
  - Loading splits on `"\n"` and drops empty strings.
  - Saving writes each id followed by `"\n"`.
  - Loading what was saved gives the same ids back.
- `bot.dfy` (module `Bot`): the per-comment step of the stream loop.
  - `Step` and `Steps` say what a comment, and a run of comments, does to
    the ledger and the saved file.
  - The class `LaunchBot` holds the module-level state the script mutates:
    the list `comments_replied_to` and the file contents.
  - Its methods (`ExitHandler`, `GetNextLaunch`, `HandleComment`,
    `ProcessStream`) perform those steps in place and are proved equal to
    `Step` and `Steps`.
  - Lemmas show that no comment is answered twice. This holds within a run
    and across a save and a reload.
- `matcher_examples.dfy` and `launch_info_examples.dfy`: what the model is
  proved to make of the comments and the API record of the repository's
  unit tests.

The outside world enters as parameters:

- The API is a function from a request to an optional response. None
  stands for `requests.get` raising.
- `convert_time` is a function from the window-start field to an optional
  sentence. None stands for it raising.
- Each comment of the stream comes with the API's answer and with whether
  `comment.reply` succeeds.

## Behaviour of the code worth knowing

- A response whose status is not 200 makes `extract_launch_info` return
  None: its `if` has no `else`. So the bot replies with the "nothing
  scheduled" fallback, not with an error.
- The fallback text interpolates the location id ("10" or "21"), not a
  place name.
- When the lookup fails, `get_next_launch` calls `exit_handler` and returns
  None. The `+=` that follows then raises, and the handler saves the ledger
  a second time. The loop then goes on with the next comment.
- The check that skips the bot's own comments is commented out, so the bot
  answers any comment, its own included.
- The ledger file is read in text mode, so "\r\n" and "\r" read as "\n".
  An id with a carriage return inside it therefore reads back as two ids,
  and one ending in a carriage return reads back without it.

## Model

| member | source | states |
|---|---|---|
| Text.DecimalString | LaunchBot.py:90 | `str(n)`: a '-' exactly when `n` is negative, then decimal digits that denote the absolute value, with no leading zero |
| Text.Capitalize | LaunchBot.py:159 | the result has the input's length, its first character upper case and every other character lower case |
| Text.RStrip | LaunchBot.py:82 | the result is a prefix of the input, every character removed belongs to the strip set, and the result does not end in one |
| Text.RStripOne | LaunchBot.py:82 | when only the last character belongs to the strip set, stripping removes exactly that character |
| Matcher.ConnectorEnd | LaunchBot.py:16 | the connector group (spaced "is", "does", "are" or "will", or "'s" then a space) matches from `p` to `q` exactly when the result is `q`, so at most one alternative applies |
| Matcher.FirstSpace | LaunchBot.py:16 | the result is the first whitespace character at or after `p`, or None when there is none |
| Matcher.TokenEndUnique | LaunchBot.py:16 | a repetition of `(\S*\s)` starting at `p` ends at `m` exactly when `TokenEnd` says `m` |
| Matcher.LaunchWithinSound | LaunchBot.py:16 | a match found by the deterministic token walk is a split into at most n tokens followed by "launch" that the lookahead accepts |
| Matcher.LaunchWithinComplete | LaunchBot.py:16 | every split into at most n tokens followed by an accepted "launch" is found by the deterministic token walk |
| Matcher.MatchesAtIff | LaunchBot.py:16 | the deterministic matcher accepts at offset `i` exactly when the question pattern matches there |
| Matcher.FindQuestionFrom | LaunchBot.py:147 | the search returns a matching offset at or after `from` with no match before it, or None when nothing from `from` on matches |
| Matcher.FindRocketLeftmost | LaunchBot.py:158 | the rocket search returns the leftmost offset at or after `from` where a rocket name occurs, with that rocket; None means no name occurs from `from` on |
| Matcher.FindRocketFirst | LaunchBot.py:158 | conversely, a rocket name with none before it from `from` on is exactly what the search returns |
| Matcher.InferRocket | LaunchBot.py:158-159 | the inferred rocket is "Electron", "Haste" or "Neutron", or None |
| Matcher.CapitalizedMatchIsName | LaunchBot.py:159 | the matched text, capitalised, is the rocket's name, whatever its case in the comment |
| Matcher.FindRocketDrop | LaunchBot.py:158 | searching from `i + from` finds what searching the suffix from `i` finds, moved by `i` |
| Matcher.InferRocketFromSuffix | LaunchBot.py:153-159 | the rocket inferred from offset `i` depends only on the text from `i` on |
| Matcher.FindNameLeftmost | LaunchBot.py:160-161 | a location search returns the leftmost offset at or after `from` where one of the names occurs; None means none occurs |
| Matcher.InferLocation | LaunchBot.py:164-177 | the result is "10" exactly when only a New Zealand name is mentioned, "21" exactly when only a United States name is, and None exactly when both or neither are |
| Matcher.FindNameDrop | LaunchBot.py:160-161 | searching for names from `i + from` finds what searching the suffix from `i` finds, moved by `i` |
| Matcher.InferLocationFromSuffix | LaunchBot.py:160-177 | the location inferred from offset `i` depends only on the text from `i` on |
| Matcher.MatchComment | LaunchBot.py:147-177 | there is no intent exactly when the question pattern matches nowhere; an intent has a known rocket or None, and a site "10", "21" or None |
| Matcher.IntentFromQuestionOn | LaunchBot.py:153-161 | the intent is inferred from the text from the question's start on, so text before the question never affects it |
| LaunchInfo.QueryParams | LaunchBot.py:25-33 | the four fixed filters come first; a rocket filter is present exactly when a rocket is given, and a location filter exactly when a location is given; no other parameter is sent |
| LaunchInfo.Render | LaunchBot.py:85-90 | a field shows as the f-string shows it: a string as itself, an integer as its signed decimal digits without a leading zero, None as "None", the missing-count default as "{}" |
| LaunchInfo.AgencyInfo | LaunchBot.py:73-82 | the agency list is the concatenated pieces with every trailing ',' and ' ' removed and nothing else: a prefix whose removed characters are all ',' or ' ' and which does not end in one; empty without agencies |
| LaunchInfo.AgencyPieceEnding | LaunchBot.py:76-81 | for an agency with a truthy abbreviation, or with a name that does not end in ',' or ' ', the piece ends in a comma that follows a character the strip keeps |
| LaunchInfo.AgencyInfoDropsFinalComma | LaunchBot.py:75-82 | when the last agency's piece ends in a kept character and a comma, the strip removes only that comma |
| LaunchInfo.MessageFrame | LaunchBot.py:84-93 | the message starts with the rocket, pad and pad-location sentence and ends with the two launch counts |
| LaunchInfo.AgencySentenceWording | LaunchBot.py:88 | with one agency the sentence is the singular one; otherwise it differs from the singular one right after the opening, 'a' against 'f' |
| LaunchInfo.AgencySentences | LaunchBot.py:88 | the agency sentence in full: "They are launching M for A." with one agency, "They are launching M a rideshare mission for  A." (two spaces) with none or several |
| LaunchInfo.MessageSingleAgency | LaunchBot.py:88 | the message continues with the singular "for" sentence exactly when one agency is listed |
| LaunchInfo.Extract | LaunchBot.py:56-97 | there is no launch exactly when the status is not 200 or there are no results; `convert_time` raising on the first launch is reported exactly when there is one; a found message starts with the first launch's lead sentence |
| LaunchInfo.ExtractReadsFirstLaunch | LaunchBot.py:59-62 | the result depends only on the first launch of the results |
| LaunchInfo.ExtractLaunchInfo | LaunchBot.py:56-97 | the method, with its agency loop, returns what `Extract` specifies |
| LaunchInfo.Fallback | LaunchBot.py:39-47 | every fallback sentence starts with "Rocketlab doesn't have any official launches scheduled " |
| LaunchInfo.FallbackNamesRocket | LaunchBot.py:40-47 | the fallback reads "for <rocket> at" when a rocket was asked about and "at" otherwise; without rocket and site it is the general sentence |
| LaunchInfo.FallbackSentences | LaunchBot.py:39-47 | the four sentences in full: rocket only, site only, both, and neither |
| LaunchInfo.FallbackEndsWithSite | LaunchBot.py:42-45 | when a site was asked about, the fallback ends with its id followed by " at the moment" |
| LaunchInfo.NextLaunch | LaunchBot.py:22-53 | the result is None exactly when the request raises or `convert_time` raises; a found message is returned unchanged; with no launch the result is the fallback for the rocket and site asked about |
| Ledger.Split | LaunchBot.py:129 | the pieces are never empty as a list, contain no newline, and joined with "\n" give the text back |
| Ledger.Universal | LaunchBot.py:127-128 | text-mode reading leaves no carriage return and never lengthens the text; what it does to each line break is `UniversalLineBreak` |
| Ledger.UniversalKeeps | LaunchBot.py:127-128 | text without a carriage return reads back unchanged |
| Ledger.UniversalLineBreak | LaunchBot.py:127-128 | after a stretch without carriage returns, each "\r\n" and each "\r" not followed by "\n" reads as exactly one "\n" and the rest is read on; with `UniversalKeeps` this fixes the text read for every file |
| Ledger.NonEmpty | LaunchBot.py:130 | a string is kept exactly when it is among the pieces and not empty |
| Ledger.NonEmptySingle | LaunchBot.py:130 | one piece is kept exactly when it is not empty |
| Ledger.NonEmptyAppend | LaunchBot.py:130 | filtering `a + b` gives the kept pieces of `a` followed by those of `b`, so order and repetitions are kept |
| Ledger.Load | LaunchBot.py:124-130 | without a file the ledger is empty; every loaded id is non-empty and free of line breaks |
| Ledger.SerializeAppend | LaunchBot.py:136-137 | writing one more id appends that id and a newline to what was written |
| Ledger.SplitLine | LaunchBot.py:129 | a line without newlines followed by "\n" splits off as the first piece |
| Ledger.SplitSerialize | LaunchBot.py:129 | splitting what was saved gives the ids followed by one empty piece |
| Ledger.NonEmptyKeeps | LaunchBot.py:130 | filtering non-empty ids followed by an empty piece gives the ids back |
| Ledger.SerializeNoCarriageReturn | LaunchBot.py:136-137 | the saved text holds no carriage return when no id does |
| Ledger.LoadAfterSave | LaunchBot.py:124-137 | loading what `exit_handler` saved gives back the same ids in the same order, for ids that are non-empty and free of line breaks |
| Ledger.CarriageReturnSplitsId | LaunchBot.py:127-137 | the id "a\rb", saved and loaded again, reads back as the two ids "a" and "b" |
| Bot.ReplyFor | LaunchBot.py:147-179 | a reply ends with the signature |
| Bot.Step | LaunchBot.py:143-190 | each outcome happens exactly when its condition holds: already replied when the id is in the ledger; not a question when the pattern does not match; lookup failed when the lookup gives None; reply failed when the reply is refused; replied otherwise. A reply ends with the signature and its id joins the ledger; a failed lookup or reply saves the ledger to the file; the other outcomes change nothing |
| Bot.StepsReplyOnce | LaunchBot.py:143-187 | over any run, the ledger grows by exactly the answered ids, no id is answered twice, and no id already in the ledger is answered |
| Bot.StepsKeepValidIds | LaunchBot.py:183 | ids the file can hold (non-empty, without line breaks) stay that way when every comment's id is such an id |
| Bot.RepliesOnceAcrossRestart | LaunchBot.py:124-193 | after a run, a save and a reload, the replies of both runs together have distinct ids |
| Bot.LaunchBot.constructor | LaunchBot.py:124-130 | the ledger starts as the file's ids, or empty when there is no file |
| Bot.LaunchBot.ExitHandler | LaunchBot.py:133-138 | the loop writes every id followed by "\n" and leaves the ledger unchanged |
| Bot.LaunchBot.GetNextLaunch | LaunchBot.py:22-53 | the result is `NextLaunch`; the ledger is saved exactly when the result is None |
| Bot.LaunchBot.HandleComment | LaunchBot.py:145-190 | the new state and outcome are those of `Step` |
| Bot.LaunchBot.ProcessStream | LaunchBot.py:141-193 | the loop over the delivered comments reaches the state and outcomes of `Steps` |
| MatcherExamples.NoQuestionWithoutW | LaunchBot.py:16 | no question starts at an offset without a 'w' |
| MatcherExamples.NoQuestionWithoutL | LaunchBot.py:16 | a text without an 'l' contains no question |
| MatcherExamples.AreTheyLaunchingIsNotAQuestion | TestLaunchBot.py:118-123 | "are they launching?" has no intent |
| MatcherExamples.IsThereALaunchIsNotAQuestion | TestLaunchBot.py:119-123 | "Is there a launch" has no intent |
| MatcherExamples.WhensTheTimeIsNotAQuestion | TestLaunchBot.py:117-123 | "When's the time?" has no intent |
| MatcherExamples.ComplexQuestionNoMatchAtStart | TestLaunchBot.py:116-123 | the lookahead refuses "launch complex 3", and no later token is "launch" |
| MatcherExamples.LaunchComplexIsNotAQuestion | TestLaunchBot.py:116-123 | "When is launch complex 3 being built?" has no intent |
| MatcherExamples.EQNoUSName | TestLaunchBot.py:87-97 | "When's Electron Launching from NZ?" mentions no United States name |
| MatcherExamples.ElectronQuestionIntent | TestLaunchBot.py:87-97 | "When's Electron Launching from NZ?" asks about Electron at site "10" |
| MatcherExamples.AQNoNZName | TestLaunchBot.py:105-111 | "When are they launching Electron from US?" mentions no New Zealand name |
| MatcherExamples.AreQuestionIntent | TestLaunchBot.py:105-112 | "When are they launching Electron from US?" asks about Electron at site "21" |
| LaunchInfoExamples.TestAgencyInfo | TestLaunchBot.py:33 | the test record's single agency is listed as "NASA (NASA)" |
| LaunchInfoExamples.TestExtraction | TestLaunchBot.py:54-60 | the message for the test record starts with its lead sentence, the time and the singular agency sentence |
| LaunchInfoExamples.TestNextLaunch | TestLaunchBot.py:46-52 | the lookup for Electron at site "10" returns that message |
| LaunchInfoExamples.EmptyScheduleFallback | LaunchBot.py:44-45 | with no launch on record the reply names the rocket and the site id |

## Left out

- The forum client (PRAW), the HTTP client and JSON decoding. A response
  is a record that already holds the fields the bot reads. The API and
  `comment.reply` are parameters.
- `convert_time`: a parameter that returns the time sentence, or None when
  it raises. Time zones and date formatting are not modelled.
- Case folding is ASCII only. Python's `re.IGNORECASE` also matches a few
  non-ASCII letters to ASCII ones that occur in the patterns: the dotless ı
  (U+0131) and the dotted capital İ (U+0130) to the 'i' of "is", "will",
  "Mahia", "Virginia" and "United", and the long ſ (U+017F) to 's'. `\d`
  is ASCII digits only, where Python also accepts other Unicode digits.
- Python errors from null or missing fields are not modelled: a null
  `mission` or a null agency name. Missing values that are rendered are
  modelled, as "None" and "{}".
- Printing to the console.
- The comment stream is infinite in the source. The model takes the
  comments delivered so far, as a finite sequence.
- `KeyboardInterrupt` is modelled only by its effect: `ExitHandler` saves
  the ledger.
- Failures to read or write the ledger file.
- The self-author filter, which the source has commented out.
- Bot.RepliesOnceAcrossRestart: promised only for comment ids that are
  non-empty and hold no "\n" or "\r". An empty id is saved as a bare line
  break and reloads as nothing. An id with "\r" inside it reloads as two ids,
  as `Ledger.CarriageReturnSplitsId` shows. In both cases the bot would
  answer that comment again.
- The ledger is written as on POSIX, with "\n" line ends. On other systems
  text mode writes "\r\n", which reads back the same.
- Matcher.InferRocket: returns the rocket's name rather than the
  capitalised matched text. `CapitalizedMatchIsName` proves the two equal.
