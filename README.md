# Suits interview game — turn state machine

This project models the core of a browser game. The player sits a job interview that a language
model narrates. Each turn shows a story step with choices. Picking a choice, or typing a free-text
reply that the model interprets, moves a *hireability* score. After a fixed number of turns the
game is over and the player is *Hired* or *Rejected*.

The model covers four parts of the source:

- **The store** (`context/Context.js`): eleven state cells, the shallow merge behind
  `setGameState`, the two append-only logs and `resetGame`. All cells live in one class,
  `Context.GameStore`, whose methods are the setters the provider exposes.
- **The turn handlers** (`components/Game.js`): `handleChoice`, `handleCustomInput`,
  `fetchNextStep`, `fetchConclusion`, the effect that picks the next fetch, and `isPlaying`.
  Each handler is a method of module `Game` that changes the store. A language-model call would
  have produced a value; that value is an argument of the handler that awaits it, so each `await`
  is plain sequencing.
- **The constant tables** (`lib/constants.js`): the difficulty presets, the languages and the
  allowed HTML tags.
- **The log view** (`components/LogsButton.js`): the style class of an entry type, the `mm:ss`
  time shown next to an entry, and the list of rows the log modal shows.

Module `Js` states the JavaScript built-ins these parts rely on. A number is an integer or NaN.
The module also covers `toString` of an integer, `parseInt(s, 10)`, `trim`, `padStart` and the
truncating `%`.

Behaviour that follows the code rather than a natural reading of it:

- The outcome is decided from the hireability captured *before* the turn, not the updated one.
  The terminal test uses the captured progress length plus one, which is the new length.
- `progress` holds only the player's strings: a chosen option's text or a typed reply.
- A typed reply writes three log entries and no backlog message. Only a chosen option writes
  backlog messages, one `model` message then one `user` message.
- A failed step fetch ends the game but sets no outcome. The effect then takes neither branch,
  so no conclusion is fetched.
- An effect goes through `parseInt`. A leading `+` is accepted. Text with no digits gives NaN,
  and NaN then absorbs every later addition. A NaN hireability is never above the threshold,
  so it gives Rejected.
- `handleCustomInput` only guards against blank input. The send button is enabled whenever
  nothing is loading and no choices are shown, which includes a finished game. A reply sent then
  is committed like any other, and on the last step it writes the outcome again. If that
  flips the outcome between Hired and Rejected, the effect's `gameState.outcome` dependency
  changes (`components/Game.js:39-42`), so the conclusion is fetched a second time.
- The textarea's Enter handler (`components/Game.js:240-244`) calls `handleCustomInput`
  directly, so a reply can be submitted even while the send button is disabled, that is while
  loading or while choices are shown.
- Start Over (`components/Game.js:154-166`) is rendered only while `isPlaying` holds, so
  `gameOver` is already false and the outcome already null when `resetGame` runs. Neither
  input of the game-state effect changes, so the effect does not re-run and no first step is
  fetched: the board stays empty until the player types a reply.
- The handlers read `playerDifficultySettings.maxSteps` and `.hiringThreshold`. The provider's
  value (`context/Context.js:111-136`) has no `playerDifficultySettings` key; it only holds
  `gameSettings`. So the handlers here take the settings as an explicit `Constants.Difficulty`
  argument, of which they read those two fields.

## Model

| member | source | states |
|---|---|---|
| Constants.DifficultyKeys | lib/constants.js:1-41 | the preset keys, one per preset, in table order |
| Constants.LanguageKeys | lib/constants.js:43-53 | the language keys, one per language, in table order |
| Constants.DifficultyPresets | lib/constants.js:1-41 | exactly four presets, with the distinct keys easy, medium, hard, ultraHard |
| Constants.PresetBounds | lib/constants.js:1-41 | every preset has maxSteps 10 (so more than 0), a threshold within [0, 100], and positive gain and loss bounds |
| Constants.PresetThresholds | lib/constants.js:9-38 | the thresholds are 60, 70, 70 and 62 in table order |
| Constants.MediumHasNoExtraPrompts | lib/constants.js:12-20 | medium has no extraPrompts, and every other preset has one, so the field is optional |
| Constants.LanguageTable | lib/constants.js:43-56 | nine languages with distinct keys and english first; seven distinct allowed tags |
| Context.InitialState | context/Context.js:7-11 | the initial game state is hireability 50, empty progress and no outcome |
| Context.DefaultSettings | context/Context.js:13-17 | the default settings are the first language (english), the first preset (easy) and the default marker |
| Context.Merge | context/Context.js:42-44 | each key present in the update wins, and each absent key keeps its previous value |
| Context.MergeLaws | context/Context.js:42-44 | an empty update changes nothing; merging the same update twice equals merging it once; two queued updates equal one merge of their combination |
| Context.MergeOutcomeOnly | context/Context.js:42-44 | setting only the outcome keeps hireability and progress |
| Context.GameStore.Sanitized | context/Context.js:62-65 | the stored entry keeps the entry's type |
| Context.GameStore.constructor | context/Context.js:28-39 | every cell starts at its initial value, and the settings start at the defaults |
| Context.GameStore.UpdateGameState | context/Context.js:42-44 | the new game state is the previous state merged with the update; no other cell changes |
| Context.GameStore.SetCurrentStep | context/Context.js:46-48 | the current step becomes the argument; no other cell changes |
| Context.GameStore.SetUserInput | context/Context.js:50-52 | the user input becomes the argument; no other cell changes |
| Context.GameStore.SetLoading | context/Context.js:54-56 | the loading flag becomes the argument; no other cell changes |
| Context.GameStore.SetError | context/Context.js:58-60 | the error becomes the argument; no other cell changes |
| Context.GameStore.SetGameOver | context/Context.js:74-76 | the game-over flag becomes the argument; no other cell changes |
| Context.GameStore.SetConclusion | context/Context.js:78-80 | the conclusion becomes the argument; no other cell changes |
| Context.GameStore.SetGameStarted | context/Context.js:35 | the started flag becomes the argument; no other cell changes |
| Context.GameStore.SetGameSettings | context/Context.js:39 | the settings become the argument; no other cell changes |
| Context.GameStore.SetBackLogMessages | context/Context.js:38 | the backlog becomes the argument; no other cell changes |
| Context.GameStore.AddGameLogEntry | context/Context.js:62-68 | exactly one entry is appended at the end, with the same type and the sanitised text and no timestamp; earlier entries are unchanged |
| Context.GameStore.AddBackLogMessage | context/Context.js:70-72 | exactly the message is appended at the end; earlier messages are unchanged |
| Context.GameStore.ResetGame | context/Context.js:98-109 | the ten game cells hold their initial values and the settings are untouched; resetting a reset store changes nothing |
| Game.NextAction | components/Game.js:36-42 | a step is fetched iff the game is not over and there is no outcome; the conclusion is fetched iff the game is over and there is an outcome; otherwise nothing is fetched |
| Game.FetchesStepIffPlaying | components/Game.js:143-145 | the effect fetches a step exactly when isPlaying holds |
| Game.IndexOutsideChoices | components/Game.js:59 | with three choices, a selection is valid iff the 1-based index is within 1..3; with no current step, no index is valid |
| Game.PresetsEndOnTenthTurn | components/Game.js:78 | under every preset, a turn is terminal iff the captured progress length plus one is at least 10 |
| Game.OutcomeFor | components/Game.js:80-83 | Hired iff the hireability is a number strictly above the threshold, otherwise Rejected |
| Game.OutcomeBoundary | components/Game.js:82 | a hireability equal to the threshold is Rejected, one point above is Hired, and NaN is Rejected |
| Game.HireabilityArithmetic | components/Game.js:65-68 | from 50, the effects "+7", "-3" and "+2" leave the hireability at 56 |
| Game.SignedLiteral | components/Game.js:65 | a sign followed by one digit parses to that digit with the sign applied |
| Game.Logged | context/Context.js:62-68 | one stored entry per entry, in order, each the sanitised entry |
| Game.PairAppended | components/Game.js:71-72 | appending a model/user pair to a paired backlog keeps it paired |
| Game.InitialStore | components/Game.js:36-42 | a freshly mounted store is consistent, and the effect's run on mount fetches the first step |
| Game.StartOver | components/Game.js:154-166 | the store is reset with the settings kept; reset while playing, gameOver and the outcome keep their values, so the effect does not re-run; the store stays consistent |
| Game.IsPlaying | components/Game.js:143-145 | definition: not over and no outcome; FetchesStepIffPlaying ties it to the effect |
| Game.ValidSelection | components/Game.js:59-62 | definition: a current step, with choices, holding an entry at the 1-based index; HandleChoice leaves the store unchanged when it fails |
| Game.ReachesLastStep | components/Game.js:78 | definition: the captured progress length plus one reaches maxSteps; PresetsEndOnTenthTurn evaluates it for every preset |
| Game.ChoicesShown | components/Game.js:218 | definition: the choice buttons show while the game is not over, there is no outcome and a step is current |
| Game.SendDisabled | components/Game.js:262-264 | definition: loading, or the choices are shown; SendEnabledIff states its negation |
| Game.EffectText | components/Game.js:74 | the text starts with "Hireability changed by: " |
| Game.EffectTextReadsBack | components/Game.js:74 | the text after that prefix parses back to the effect, NaN included |
| Game.ChoiceEntriesShape | components/Game.js:73-74 | two entries, a user entry then an effect entry carrying the effect text |
| Game.TypedEntriesShape | components/Game.js:107-112 | three entries, user, interpretation and effect in that order, the last carrying the effect text |
| Game.SendEnabledIff | components/Game.js:262-264 | the send button is enabled iff nothing is loading and the choices are not shown |
| Game.FetchNextStep | components/Game.js:44-56 | on success the step is stored, one story entry is logged and the error is cleared; on failure the error is set and the game is over with the outcome untouched; loading is false in both cases |
| Game.FetchConclusion | components/Game.js:131-137 | the conclusion is the generated text, or the fixed fallback when the call failed; the error is cleared and loading is false |
| Game.GameStateEffect | components/Game.js:36-42 | exactly the fetch that NextAction picks runs, or nothing when it picks neither; the store stays consistent |
| Game.CommitChoice | components/Game.js:67-76 | the hireability grows by the effect and the choice text is appended to progress; two backlog messages (model story, user choice) and two log entries (user, effect) are appended in order; the step is cleared and the input emptied |
| Game.CommitTyped | components/Game.js:103-114 | the hireability grows by the effect and the typed text is appended to progress; three log entries (user, interpretation, effect) are appended in order and no backlog message; the input is emptied and the step cleared |
| Game.FinishTurn | components/Game.js:78-86 | on the last step the game is over and the outcome is decided from the pre-turn hireability, with no fetch; otherwise exactly one step fetch runs |
| Game.HandleChoice | components/Game.js:58-87 | an invalid selection changes nothing; a valid one commits the turn (hireability, progress, two backlog messages, two log entries, cleared step and input) and then either ends the game with the outcome decided from the pre-turn hireability or fetches one step; the store stays consistent |
| Game.TypedTurn | components/Game.js:101-124 | a successful interpretation commits the turn without backlog messages, then ends the game from the pre-turn hireability or fetches one step |
| Game.SubmitInput | components/Game.js:92-128 | a failed interpretation sets the error and leaves hireability, progress, the step and the log unchanged; a successful one commits the turn; loading is false at the end |
| Game.HandleCustomInput | components/Game.js:89-129 | blank or whitespace-only input changes nothing; any other input is submitted, and the store stays consistent |
| Game.HandleInputChange | components/Game.js:139-141 | the user input becomes the text area's value |
| Js.Add | components/Game.js:68 | the sum is a number iff both operands are; it is then their sum |
| Js.Remainder | components/LogsButton.js:44 | the remainder lies strictly between -b and b and has the sign of the dividend; for a non-negative dividend it is the Euclidean remainder |
| Js.RemainderOdd | components/LogsButton.js:44 | negating the dividend negates the remainder, so with the non-negative case every value is fixed, as for the truncating `%` |
| Js.GreaterThan | components/Game.js:82 | definition: a number above the bound; a comparison with NaN is false (OutcomeFor states the consequence) |
| Js.NatToString | components/LogsButton.js:41-44 | the decimal digits of n: at least one, one exactly when n is below 10, three or more from 100 on, and no leading zero |
| Js.IntToString | components/Game.js:74 | a non-negative integer as its digits, a negative one with a minus sign in front |
| Js.ParseNatToString | components/LogsButton.js:41-44 | reading back the digits of n gives n |
| Js.PadStart | components/LogsButton.js:43-44 | the result has length max(n, \|s\|), ends with s and is filled with the pad character in front, so it never truncates |
| Js.PadWithZeros | components/LogsButton.js:43-44 | zero-padding a digit string keeps it a digit string of the same value |
| Js.TrimStart | components/Game.js:90 | the result is the suffix left after the leading white space, and it starts with another character |
| Js.TrimEnd | components/Game.js:90 | the result is the prefix left before the trailing white space, and it ends with another character |
| Js.Trim | components/Game.js:90 | definition: TrimEnd after TrimStart |
| Js.TrimStripsBothEnds | components/Game.js:90 | the trimmed text is a slice of the input that neither starts nor ends with white space |
| Js.IsBlank | components/Game.js:90 | definition: empty once trimmed; BlankIffAllWhitespace characterises it |
| Js.BlankIffAllWhitespace | components/Game.js:90 | the input is blank after trimming iff every character is white space |
| Js.DigitPrefix | components/Game.js:65 | the longest prefix of decimal digits |
| Js.ParseInt | components/Game.js:65 | definition: skip the leading white space, then read a signed number; the ParseInt lemmas below state its results |
| Js.ParseSigned | components/Game.js:65 | definition: a minus sign negates, a plus sign is skipped, then the digits are read |
| Js.ParseUnsigned | components/Game.js:65 | definition: the value of the leading digits, NaN when there are none |
| Js.ParseIntDigits | components/Game.js:65 | leading white space, then digits, then a non-digit, parses to the value of the digits |
| Js.ParseIntSigned | components/Game.js:65 | the same with a sign: a plus sign keeps the value and a minus sign negates it |
| Js.ParseIntNaN | components/Game.js:65 | with no sign and no digit after the white space, the result is NaN |
| Js.ParseIntSignedNaN | components/Game.js:65 | a sign with no digit after it gives NaN |
| Js.ParseIntToString | components/Game.js:65 | parseInt reads back what toString writes, for every integer |
| Js.ParseIntNumberToString | components/Game.js:74 | parseInt reads back the template-literal text of every number, NaN included |
| Js.ParseIntPlusSign | components/Game.js:65 | an effect written as "+" and the digits of n parses to n |
| Logs.LogClassName | components/LogsButton.js:21-36 | the default class is returned iff the type is none of user, model, story, interpretation, effect |
| Logs.ClassesDistinct | components/LogsButton.js:21-36 | two different known types never share a class |
| Logs.HandlerEntriesStyled | components/Game.js:107-112 | every entry the handlers log has a class of its own: the typed reply's user, interpretation and effect entries, the chosen option's user and effect entries, and the story entry |
| Logs.MinutesPart | components/LogsButton.js:41-43 | definition: the floored minutes as text, padded to two characters; MinutesDecode states its value |
| Logs.SecondsPart | components/LogsButton.js:44 | definition: the truncating remainder by 60 as text, padded to two characters; SecondsDecode states its value |
| Logs.RelativeTime | components/LogsButton.js:46 | definition: minutes, a colon, seconds; RelativeTimeDecodes and RelativeTimeInjective state what it means |
| Logs.RelativeTimeFromFirstLog | components/LogsButton.js:38-47 | definition: needs a first entry and gives RelativeTime of the difference; RenderLog calls it only on a non-empty log |
| Logs.RelativeTimeDecodes | components/LogsButton.js:38-47 | for a non-negative difference the text is minutes, a colon and seconds; the minutes have two digits or more, the seconds exactly two and below 60, and 60 × minutes + seconds is the difference |
| Logs.MinutesDecode | components/LogsButton.js:41-43 | for a non-negative difference the minutes field is digits, at least two of them, denoting the whole minutes |
| Logs.SecondsDecode | components/LogsButton.js:44 | for a non-negative difference the seconds field is exactly two digits denoting the remaining seconds |
| Logs.RelativeTimeInjective | components/LogsButton.js:38-47 | different non-negative differences show different texts |
| Logs.FirstEntryTime | components/LogsButton.js:38-47 | a difference of 0 shows "00:00" |
| Logs.LongGameMinutes | components/LogsButton.js:41-43 | from 6000 seconds on, the minutes field has three or more digits and is not padded |
| Logs.NegativeTime | components/LogsButton.js:41-46 | a negative difference keeps the sign in both fields: -5 shows "-1:-5" |
| Logs.RenderLog | components/LogsButton.js:68-78 | an empty log shows "No logs yet"; otherwise one row per entry, in order, with its time, its class and its text; the time is only computed when the log has a first entry |

## Left out

- The language-model calls (`lib/gemini.js`, `lib/model.js`): prompts, network access and the
  parsing of replies. Their results are handler arguments. `Option<Step>` stands for a step or
  a failure. `Option<Interpretation>` stands for an interpretation or a failure. `Option<string>`
  is the conclusion text, or None for a failed call; None gives the fixed fallback of
  `lib/gemini.js:124`.
- DOMPurify and the detached element in `addGameLogEntry`: the store is given the resulting
  text function (`textContent`) when it is built.
- `dayjs`: the log view is given whole seconds. Log entries carry no timestamp, so the source
  computes both ends from the current time. The model does not fix what the differences are.
- `components/PlayBackTime.js`, the timer, and all presentation: the JSX, styles and the modal's
  open state. The spaces around the time and text of a log row are presentation too.
- Concurrency: overlapping `await`s, React's batching and re-render timing, and when the effect
  re-runs. Handlers run as sequences of setter calls, and each setter takes effect at once. The
  effect is one method that is run whenever its inputs may have changed.
- Number precision: a hireability or effect is an unbounded integer or NaN. The floating-point
  range of JavaScript numbers is not modelled.
- The commented-out `setGameLanguage` and `setGameDifficulty` (`context/Context.js:82-96`), and
  the commented-out conclusion panel: they are not code.
- The settings mismatch: in the source, `playerDifficultySettings` is undefined. Reading
  `.maxSteps` at `components/Game.js:78` throws. Before that, every generator call throws too:
  `lib/gemini.js:67`, `:95` and `:116` read `difficultySettings.*` while building the prompt,
  outside the `try` that starts at lines 71, 98 and 119. The promise rejects, so `fetchNextStep`
  never reaches `setLoading(false)`. The model takes the settings as an argument instead, so
  none of these failures is modelled.
- What the generators are given: `fetchNextStep` passes the `gameState` its closure captured
  before the turn (`components/Game.js:47`), so the narrative generator never sees the choice
  just made. The model does not describe the generators' inputs at all; their outputs are
  arguments.
- `console.error` and `console.log` calls.
