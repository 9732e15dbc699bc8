/**
 * The interview game's turn handlers, run against the store. What a generator
 * call would have returned is an argument of the handler that awaits it, so each
 * `await` becomes plain sequencing. The settings the handlers read are an explicit
 * argument: a difficulty preset, of which they read `maxSteps` and `hiringThreshold`.
 */
module Game {
  import opened Wrappers
  import opened Js
  import opened Context
  import Constants

  const FetchStepFailed := "Failed to fetch the next story step."
  const InterpretFailed := "Failed to interpret your input."

  /** What the conclusion generator returns when its call fails. */
  const ConclusionFallback := "The interview concludes abruptly."

  /** What the interpreter returns for a typed reply; `effect` is a signed integer as text. */
  datatype Interpretation = Interpretation(reply: string, effect: string, reasoning: string)

  // ---------------------------------------------------------------- the game-state effect

  /** The branch the effect on `[gameOver, gameState.outcome]` takes. */
  datatype Action = NextStep | Conclude | Idle

  /** `isPlaying`. */
  predicate IsPlaying(gameOver: bool, outcome: Option<Outcome>) {
    !gameOver && outcome == None
  }

  /** The effect's branch: fetch a step while nothing is decided, the conclusion once an outcome is set on a finished game. */
  function NextAction(gameOver: bool, outcome: Option<Outcome>): (a: Action)
    ensures a == NextStep <==> !gameOver && outcome.None?
    ensures a == Conclude <==> gameOver && outcome.Some?
    ensures a == Idle <==> (gameOver && outcome.None?) || (!gameOver && outcome.Some?)
  {
    if !gameOver && outcome == None then NextStep
    else if gameOver && outcome != None then Conclude
    else Idle
  }

  /** The effect fetches a step exactly when `isPlaying` holds. */
  lemma FetchesStepIffPlaying(gameOver: bool, outcome: Option<Outcome>)
    ensures NextAction(gameOver, outcome) == NextStep <==> IsPlaying(gameOver, outcome)
  {
  }

  // ---------------------------------------------------------------- turn rules

  /** `handleChoice`'s guard: a current step with choices, and a choice at the 1-based index. */
  predicate ValidSelection(step: Option<Step>, index: int) {
    step.Some? && step.value.choices.Some? && 1 <= index <= |step.value.choices.value|
  }

  function SelectedChoice(step: Option<Step>, index: int): Choice
    requires ValidSelection(step, index)
  {
    step.value.choices.value[index - 1]
  }

  /** With three choices, an index outside 1..3 selects nothing. */
  lemma IndexOutsideChoices(step: Step, index: int)
    requires step.choices.Some? && |step.choices.value| == 3
    ensures ValidSelection(Some(step), index) <==> 1 <= index <= 3
    ensures !ValidSelection(None, index)
  {
  }

  /** The terminal test, evaluated on the progress captured before the turn: its length plus one is the new length. */
  predicate ReachesLastStep(progress: seq<string>, settings: Constants.Difficulty) {
    |progress| + 1 >= settings.maxSteps
  }

  /** Under every preset the turn that makes progress ten entries long ends the game. */
  lemma PresetsEndOnTenthTurn(progress: seq<string>, d: Constants.Difficulty)
    requires d in Constants.DifficultyLevels
    ensures ReachesLastStep(progress, d) <==> |progress| + 1 >= 10
  {
    Constants.PresetBounds();
  }

  /** The outcome: Hired only for a hireability strictly above the threshold; a NaN hireability is Rejected. */
  function OutcomeFor(hireability: Number, settings: Constants.Difficulty): (o: Outcome)
    ensures o == Hired <==> hireability.Num? && hireability.value > settings.hiringThreshold
  {
    if GreaterThan(hireability, settings.hiringThreshold) then Hired else Rejected
  }

  /** A hireability equal to the threshold is Rejected, one point more is Hired. */
  lemma OutcomeBoundary(settings: Constants.Difficulty)
    ensures OutcomeFor(Num(settings.hiringThreshold), settings) == Rejected
    ensures OutcomeFor(Num(settings.hiringThreshold + 1), settings) == Hired
    ensures OutcomeFor(NaN, settings) == Rejected
  {
  }

  /**
   * From 50, effects "+7", "-3" and "+2" leave hireability at 56. The effects are parameters
   * pinned by the precondition so that the solver does not unfold the string literals inside ParseInt.
   */
  lemma HireabilityArithmetic(first: string, second: string, third: string)
    requires first == "+7" && second == "-3" && third == "+2"
    ensures Add(Add(Add(Num(50), ParseInt(first)), ParseInt(second)), ParseInt(third)) == Num(56)
  {
    SignedLiteral('+', '7');
    SignedLiteral('-', '3');
    SignedLiteral('+', '2');
  }

  /** A sign followed by one digit parses to the signed digit. */
  lemma SignedLiteral(sign: char, digit: char)
    requires sign == '+' || sign == '-'
    requires IsDigit(digit)
    ensures ParseInt([sign, digit]) == Num(if sign == '-' then -(DigitValue(digit) as int) else DigitValue(digit))
  {
    var s := [sign, digit];
    NoSpaceInFront(s);
    assert [sign] + [digit] == s;
    OneDigit(digit);
    SignedOnly(sign, [digit]);
  }

  lemma OneDigit(digit: char)
    requires IsDigit(digit)
    ensures ParseDigits([digit]) == DigitValue(digit)
    ensures ParseUnsigned([digit]) == Num(DigitValue(digit))
  {
    assert DigitPrefix([digit]) == [digit] by {
      assert [digit][1..] == [];
    }
    assert ParseDigits([digit]) == DigitValue(digit) by {
      assert [digit][..0] == [];
    }
  }

  const EffectPrefix := "Hireability changed by: "

  /** The text of an effect entry: the prefix, then the effect as a template literal writes it. */
  function EffectText(effect: Number): (t: string)
    ensures EffectPrefix < t
  {
    EffectPrefix + NumberToString(effect)
  }

  /** The part of an effect entry after its prefix reads back as the effect, NaN included. */
  lemma EffectTextReadsBack(effect: Number)
    ensures ParseInt(EffectText(effect)[|EffectPrefix|..]) == effect
  {
    ParseIntNumberToString(effect);
    assert EffectText(effect)[|EffectPrefix|..] == NumberToString(effect);
  }

  /** The log entries of a chosen option, before the store sanitises them: a user entry, then an effect entry. */
  function ChoiceEntries(choice: Choice, effect: Number): seq<LogEntry> {
    [LogEntry("user", "Chose: " + choice.text), LogEntry("effect", EffectText(effect))]
  }

  /** A chosen option logs two entries, a user entry then an effect entry carrying the effect text. */
  lemma ChoiceEntriesShape(choice: Choice, effect: Number)
    ensures var es := ChoiceEntries(choice, effect);
      |es| == 2 && es[0].kind == "user" && es[1].kind == "effect" && es[1].text == EffectText(effect)
  {
  }

  /** The log entries of an interpreted reply, before the store sanitises them: user, interpretation, effect. */
  function TypedEntries(input: string, interpretation: Interpretation, effect: Number): seq<LogEntry> {
    [ LogEntry("user", "Typed: " + input),
      LogEntry("interpretation", "Interpretation: " + interpretation.reply),
      LogEntry("effect", EffectText(effect)) ]
  }

  /** An interpreted reply logs three entries, user, interpretation and effect, the last carrying the effect text. */
  lemma TypedEntriesShape(input: string, interpretation: Interpretation, effect: Number)
    ensures var es := TypedEntries(input, interpretation, effect);
      && |es| == 3 && es[0].kind == "user" && es[1].kind == "interpretation" && es[2].kind == "effect"
      && es[2].text == EffectText(effect)
  {
  }

  /** The entries as the store keeps them, one `addGameLogEntry` each. */
  function Logged(g: GameStore, entries: seq<LogEntry>): (r: seq<LogEntry>)
    ensures |r| == |entries|
    ensures forall i :: 0 <= i < |r| ==> r[i] == g.Sanitized(entries[i])
    ensures forall i :: 0 <= i < |r| ==> r[i].kind == entries[i].kind
  {
    if entries == [] then [] else [g.Sanitized(entries[0])] + Logged(g, entries[1..])
  }

  lemma LoggedTwo(g: GameStore, a: LogEntry, b: LogEntry)
    ensures Logged(g, [a, b]) == [g.Sanitized(a), g.Sanitized(b)]
  {
  }

  lemma LoggedThree(g: GameStore, a: LogEntry, b: LogEntry, c: LogEntry)
    ensures Logged(g, [a, b, c]) == [g.Sanitized(a), g.Sanitized(b), g.Sanitized(c)]
  {
  }

  // ---------------------------------------------------------------- what the handlers keep

  /** The backlog is a sequence of (model, user) pairs. */
  predicate BacklogPaired(backLog: seq<Message>) {
    && |backLog| % 2 == 0
    && forall k :: 0 <= k < |backLog| ==> backLog[k].kind == (if k % 2 == 0 then "model" else "user")
  }

  lemma PairAppended(backLog: seq<Message>, story: string, text: string)
    requires BacklogPaired(backLog)
    ensures BacklogPaired(backLog + [Message("model", story), Message("user", text)])
  {
  }

  /** Between handler runs: an outcome is only set on a finished game, and the backlog holds whole pairs. */
  predicate Consistent(g: GameStore)
    reads g
  {
    (g.gameState.outcome.Some? ==> g.gameOver) && BacklogPaired(g.backLog)
  }

  /**
   * A freshly mounted store is consistent, and the effect's run on mount fetches the first step.
   * (After a reset the effect need not run at all: see StartOver.)
   */
  lemma InitialStore(g: GameStore)
    requires g.IsInitial()
    ensures Consistent(g)
    ensures NextAction(g.gameOver, g.gameState.outcome) == NextStep
  {
  }

  /** The choice buttons are rendered. */
  predicate ChoicesShown(g: GameStore)
    reads g
  {
    !g.gameOver && g.gameState.outcome == None && g.currentStep.Some?
  }

  /** The send button is disabled. */
  predicate SendDisabled(g: GameStore)
    reads g
  {
    g.loading || (!g.gameOver && g.gameState.outcome == None && g.currentStep != None)
  }

  /** The send button is usable exactly when nothing loads and no choices are offered. */
  lemma SendEnabledIff(g: GameStore)
    ensures !SendDisabled(g) <==> !g.loading && !ChoicesShown(g)
  {
  }

  /**
   * The store after `fetchNextStep` ran with `stepData`, starting from `log`, `over` and `step`:
   * a step is stored and logged, or the error is set and the game is over; never loading.
   */
  predicate AfterFetch(g: GameStore, stepData: Option<Step>, log: seq<LogEntry>, over: bool, step: Option<Step>)
    reads g
  {
    && !g.loading
    && (stepData.Some? ==>
          && g.currentStep == stepData
          && g.gameLog == log + [g.Sanitized(LogEntry("story", stepData.value.story))]
          && g.error == None
          && g.gameOver == over)
    && (stepData.None? ==>
          && g.currentStep == step
          && g.gameLog == log
          && g.error == Some(FetchStepFailed)
          && g.gameOver)
  }

  // ---------------------------------------------------------------- handlers

  /** `fetchNextStep`, given what `generateStoryStep` returned. */
  method FetchNextStep(g: GameStore, stepData: Option<Step>)
    modifies g
    ensures AfterFetch(g, stepData, old(g.gameLog), old(g.gameOver), old(g.currentStep))
    ensures g.gameState == old(g.gameState) && g.userInput == old(g.userInput)
    ensures g.backLog == old(g.backLog) && g.conclusion == old(g.conclusion)
    ensures g.gameStarted == old(g.gameStarted) && g.gameSettings == old(g.gameSettings)
  {
    g.SetLoading(true);
    g.SetError(None);
    if stepData.Some? {
      g.SetCurrentStep(stepData);
      g.AddGameLogEntry(LogEntry("story", stepData.value.story));
    } else {
      g.SetError(Some(FetchStepFailed));
      g.SetGameOver(true);
    }
    g.SetLoading(false);
  }

  /** `fetchConclusion`, given what the conclusion generator's call produced (None when it failed). */
  method FetchConclusion(g: GameStore, generated: Option<string>)
    modifies g
    ensures g.conclusion == generated.GetOr(ConclusionFallback)
    ensures !g.loading && g.error == None
    ensures g.gameState == old(g.gameState) && g.currentStep == old(g.currentStep)
    ensures g.userInput == old(g.userInput) && g.gameLog == old(g.gameLog)
    ensures g.gameOver == old(g.gameOver) && g.backLog == old(g.backLog)
    ensures g.gameStarted == old(g.gameStarted) && g.gameSettings == old(g.gameSettings)
  {
    g.SetLoading(true);
    g.SetError(None);
    g.SetConclusion(generated.GetOr(ConclusionFallback));
    g.SetLoading(false);
  }

  /**
   * The effect on `[gameOver, gameState.outcome]`, run when either changes (and on mount):
   * at most one of the two fetches, chosen by NextAction.
   */
  method GameStateEffect(g: GameStore, stepData: Option<Step>, generated: Option<string>)
    modifies g
    ensures NextAction(old(g.gameOver), old(g.gameState.outcome)) == NextStep ==>
      && AfterFetch(g, stepData, old(g.gameLog), old(g.gameOver), old(g.currentStep))
      && g.gameState == old(g.gameState) && g.userInput == old(g.userInput)
      && g.backLog == old(g.backLog) && g.conclusion == old(g.conclusion)
    ensures NextAction(old(g.gameOver), old(g.gameState.outcome)) == Conclude ==>
      && g.conclusion == generated.GetOr(ConclusionFallback)
      && !g.loading && g.error == None
      && g.gameState == old(g.gameState) && g.currentStep == old(g.currentStep)
      && g.userInput == old(g.userInput) && g.gameLog == old(g.gameLog)
      && g.gameOver == old(g.gameOver) && g.backLog == old(g.backLog)
    ensures NextAction(old(g.gameOver), old(g.gameState.outcome)) == Idle ==> unchanged(g)
    ensures g.gameStarted == old(g.gameStarted) && g.gameSettings == old(g.gameSettings)
    ensures old(Consistent(g)) ==> Consistent(g)
  {
    match NextAction(g.gameOver, g.gameState.outcome)
    case NextStep => FetchNextStep(g, stepData);
    case Conclude => FetchConclusion(g, generated);
    case Idle =>
  }

  /** The part of `handleChoice` that commits a valid selection, before the terminal test. */
  method CommitChoice(g: GameStore, before: GameState, step: Step, choice: Choice, effect: Number)
    modifies g
    ensures g.gameState == Merge(old(g.gameState), GameStateUpdate(Some(Add(before.hireability, effect)), Some(before.progress + [choice.text]), None))
    ensures g.backLog == old(g.backLog) + [Message("model", step.story), Message("user", choice.text)]
    ensures g.gameLog == old(g.gameLog) + Logged(g, ChoiceEntries(choice, effect))
    ensures g.currentStep == None && g.userInput == ""
    ensures g.loading == old(g.loading) && g.error == old(g.error) && g.gameOver == old(g.gameOver)
    ensures g.conclusion == old(g.conclusion)
    ensures g.gameStarted == old(g.gameStarted) && g.gameSettings == old(g.gameSettings)
  {
    g.UpdateGameState(GameStateUpdate(Some(Add(before.hireability, effect)), Some(before.progress + [choice.text]), None));
    g.AddBackLogMessage(Message("model", step.story));
    g.AddBackLogMessage(Message("user", choice.text));
    var es := ChoiceEntries(choice, effect);
    ghost var log := g.gameLog;
    g.AddGameLogEntry(es[0]);
    g.AddGameLogEntry(es[1]);
    assert g.gameLog == log + [g.Sanitized(es[0]), g.Sanitized(es[1])];
    LoggedTwo(g, es[0], es[1]);
    g.SetCurrentStep(None);
    g.SetUserInput("");
  }

  /** The part of `handleCustomInput` that commits an interpreted reply, before the terminal test. */
  method CommitTyped(g: GameStore, before: GameState, input: string, interpretation: Interpretation, effect: Number)
    modifies g
    ensures g.gameState == Merge(old(g.gameState), GameStateUpdate(Some(Add(before.hireability, effect)), Some(before.progress + [input]), None))
    ensures g.gameLog == old(g.gameLog) + Logged(g, TypedEntries(input, interpretation, effect))
    ensures g.currentStep == None && g.userInput == ""
    ensures g.loading == old(g.loading) && g.error == old(g.error) && g.gameOver == old(g.gameOver)
    ensures g.backLog == old(g.backLog) && g.conclusion == old(g.conclusion)
    ensures g.gameStarted == old(g.gameStarted) && g.gameSettings == old(g.gameSettings)
  {
    g.UpdateGameState(GameStateUpdate(Some(Add(before.hireability, effect)), Some(before.progress + [input]), None));
    var es := TypedEntries(input, interpretation, effect);
    ghost var log := g.gameLog;
    g.AddGameLogEntry(es[0]);
    g.AddGameLogEntry(es[1]);
    g.AddGameLogEntry(es[2]);
    assert g.gameLog == log + [g.Sanitized(es[0]), g.Sanitized(es[1]), g.Sanitized(es[2])];
    LoggedThree(g, es[0], es[1], es[2]);
    g.SetUserInput("");
    g.SetCurrentStep(None);
  }

  /**
   * The end of a committed turn, common to both handlers: on the last step the game is over
   * and the outcome is decided from `before`, the game state captured before the turn;
   * otherwise exactly one step is fetched.
   */
  method FinishTurn(g: GameStore, settings: Constants.Difficulty, before: GameState, stepData: Option<Step>)
    modifies g
    ensures ReachesLastStep(before.progress, settings) ==>
      && g.gameOver
      && g.gameState == Merge(old(g.gameState), GameStateUpdate(None, None, Some(Some(OutcomeFor(before.hireability, settings)))))
      && g.currentStep == old(g.currentStep) && g.gameLog == old(g.gameLog)
      && g.loading == old(g.loading) && g.error == old(g.error)
    ensures !ReachesLastStep(before.progress, settings) ==>
      && g.gameState == old(g.gameState)
      && AfterFetch(g, stepData, old(g.gameLog), old(g.gameOver), old(g.currentStep))
    ensures g.userInput == old(g.userInput)
    ensures g.backLog == old(g.backLog) && g.conclusion == old(g.conclusion)
    ensures g.gameStarted == old(g.gameStarted) && g.gameSettings == old(g.gameSettings)
  {
    if ReachesLastStep(before.progress, settings) {
      g.SetGameOver(true);
      g.UpdateGameState(GameStateUpdate(None, None, Some(Some(OutcomeFor(before.hireability, settings)))));
    } else {
      FetchNextStep(g, stepData);
    }
  }

  /**
   * `handleChoice(choiceIndex)`, given what `generateStoryStep` returns if the turn fetches one.
   * An invalid selection changes nothing. A valid one commits the turn; the outcome is decided
   * from the hireability captured before the turn.
   */
  method HandleChoice(g: GameStore, settings: Constants.Difficulty, choiceIndex: int, stepData: Option<Step>)
    modifies g
    ensures !ValidSelection(old(g.currentStep), choiceIndex) ==> unchanged(g)
    ensures ValidSelection(old(g.currentStep), choiceIndex) ==>
      var choice := SelectedChoice(old(g.currentStep), choiceIndex);
      var effect := ParseInt(choice.effect);
      var log := old(g.gameLog) + Logged(g, ChoiceEntries(choice, effect));
      && g.gameState.hireability == Add(old(g.gameState.hireability), effect)
      && g.gameState.progress == old(g.gameState.progress) + [choice.text]
      && g.backLog == old(g.backLog) + [Message("model", old(g.currentStep).value.story), Message("user", choice.text)]
      && g.userInput == ""
      && g.conclusion == old(g.conclusion)
      && g.gameStarted == old(g.gameStarted) && g.gameSettings == old(g.gameSettings)
      && (ReachesLastStep(old(g.gameState.progress), settings) ==>
            && g.gameOver
            && g.gameState.outcome == Some(OutcomeFor(old(g.gameState.hireability), settings))
            && g.currentStep == None
            && g.gameLog == log
            && g.loading == old(g.loading) && g.error == old(g.error))
      && (!ReachesLastStep(old(g.gameState.progress), settings) ==>
            && g.gameState.outcome == old(g.gameState.outcome)
            && AfterFetch(g, stepData, log, old(g.gameOver), None))
    ensures old(Consistent(g)) ==> Consistent(g)
  {
    if !ValidSelection(g.currentStep, choiceIndex) {
      return;
    }
    var state := g.gameState;
    var step := g.currentStep.value;
    var selected := SelectedChoice(g.currentStep, choiceIndex);
    var effect := ParseInt(selected.effect);
    if BacklogPaired(g.backLog) {
      PairAppended(g.backLog, step.story, selected.text);
    }
    CommitChoice(g, state, step, selected, effect);
    FinishTurn(g, settings, state, stepData);
  }

  /** The interpreted branch of `handleCustomInput`: commit the reply, then end the turn. */
  method TypedTurn(g: GameStore, settings: Constants.Difficulty, interpretation: Interpretation, stepData: Option<Step>)
    modifies g
    ensures
      var effect := ParseInt(interpretation.effect);
      var log := old(g.gameLog) + Logged(g, TypedEntries(old(g.userInput), interpretation, effect));
      && g.gameState.hireability == Add(old(g.gameState.hireability), effect)
      && g.gameState.progress == old(g.gameState.progress) + [old(g.userInput)]
      && g.userInput == ""
      && g.backLog == old(g.backLog) && g.conclusion == old(g.conclusion)
      && g.gameStarted == old(g.gameStarted) && g.gameSettings == old(g.gameSettings)
      && (ReachesLastStep(old(g.gameState.progress), settings) ==>
            && g.gameOver
            && g.gameState.outcome == Some(OutcomeFor(old(g.gameState.hireability), settings))
            && g.currentStep == None
            && g.gameLog == log
            && g.loading == old(g.loading) && g.error == old(g.error))
      && (!ReachesLastStep(old(g.gameState.progress), settings) ==>
            && g.gameState.outcome == old(g.gameState.outcome)
            && AfterFetch(g, stepData, log, old(g.gameOver), None))
    ensures old(Consistent(g)) ==> Consistent(g)
  {
    var input := g.userInput;
    var state := g.gameState;
    var effect := ParseInt(interpretation.effect);
    CommitTyped(g, state, input, interpretation, effect);
    FinishTurn(g, settings, state, stepData);
  }

  /**
   * `handleCustomInput` past its blank-input guard: the turn is loading while the reply is
   * interpreted; a failed interpretation only reports the error, a successful one commits
   * the turn without any backlog message.
   */
  method SubmitInput(g: GameStore, settings: Constants.Difficulty, interpretation: Option<Interpretation>, stepData: Option<Step>)
    modifies g
    ensures !g.loading
    ensures g.backLog == old(g.backLog) && g.conclusion == old(g.conclusion)
    ensures g.gameStarted == old(g.gameStarted) && g.gameSettings == old(g.gameSettings)
    ensures interpretation.None? ==>
      && g.error == Some(InterpretFailed)
      && g.gameState == old(g.gameState) && g.currentStep == old(g.currentStep)
      && g.gameLog == old(g.gameLog) && g.userInput == old(g.userInput)
      && g.gameOver == old(g.gameOver)
    ensures interpretation.Some? ==>
      var effect := ParseInt(interpretation.value.effect);
      var log := old(g.gameLog) + Logged(g, TypedEntries(old(g.userInput), interpretation.value, effect));
      && g.gameState.hireability == Add(old(g.gameState.hireability), effect)
      && g.gameState.progress == old(g.gameState.progress) + [old(g.userInput)]
      && g.userInput == ""
      && (ReachesLastStep(old(g.gameState.progress), settings) ==>
            && g.gameOver
            && g.gameState.outcome == Some(OutcomeFor(old(g.gameState.hireability), settings))
            && g.currentStep == None
            && g.gameLog == log
            && g.error == None)
      && (!ReachesLastStep(old(g.gameState.progress), settings) ==>
            && g.gameState.outcome == old(g.gameState.outcome)
            && AfterFetch(g, stepData, log, old(g.gameOver), None))
    ensures old(Consistent(g)) ==> Consistent(g)
  {
    g.SetLoading(true);
    g.SetError(None);
    if interpretation.Some? {
      TypedTurn(g, settings, interpretation.value, stepData);
    } else {
      g.SetError(Some(InterpretFailed));
    }
    g.SetLoading(false);
  }

  /**
   * `handleCustomInput`, given what `interpretUserInput` returned (None when it failed) and what
   * `generateStoryStep` returns if the turn fetches one: blank input changes nothing, any other
   * input is submitted.
   */
  method HandleCustomInput(g: GameStore, settings: Constants.Difficulty, interpretation: Option<Interpretation>, stepData: Option<Step>)
    modifies g
    ensures IsBlank(old(g.userInput)) ==> unchanged(g)
    ensures !IsBlank(old(g.userInput)) ==>
      && !g.loading
      && g.backLog == old(g.backLog) && g.conclusion == old(g.conclusion)
      && g.gameStarted == old(g.gameStarted) && g.gameSettings == old(g.gameSettings)
    ensures !IsBlank(old(g.userInput)) && interpretation.None? ==>
      && g.error == Some(InterpretFailed)
      && g.gameState == old(g.gameState) && g.currentStep == old(g.currentStep)
      && g.gameLog == old(g.gameLog) && g.userInput == old(g.userInput)
      && g.gameOver == old(g.gameOver)
    ensures !IsBlank(old(g.userInput)) && interpretation.Some? ==>
      var effect := ParseInt(interpretation.value.effect);
      var log := old(g.gameLog) + Logged(g, TypedEntries(old(g.userInput), interpretation.value, effect));
      && g.gameState.hireability == Add(old(g.gameState.hireability), effect)
      && g.gameState.progress == old(g.gameState.progress) + [old(g.userInput)]
      && g.userInput == ""
      && (ReachesLastStep(old(g.gameState.progress), settings) ==>
            && g.gameOver
            && g.gameState.outcome == Some(OutcomeFor(old(g.gameState.hireability), settings))
            && g.currentStep == None
            && g.gameLog == log
            && g.error == None)
      && (!ReachesLastStep(old(g.gameState.progress), settings) ==>
            && g.gameState.outcome == old(g.gameState.outcome)
            && AfterFetch(g, stepData, log, old(g.gameOver), None))
    ensures old(Consistent(g)) ==> Consistent(g)
  {
    if !IsBlank(g.userInput) {
      SubmitInput(g, settings, interpretation, stepData);
    }
  }

  /** `handleInputChange`: the text area's value becomes the user input. */
  method HandleInputChange(g: GameStore, value: string)
    modifies g`userInput
    ensures g.userInput == value
  {
    g.SetUserInput(value);
  }

  /**
   * The Start Over button (rendered only while `isPlaying` holds): `resetGame`. Reset while
   * playing, the two inputs of the game-state effect keep their values, so the effect does
   * not re-run and no first step is fetched.
   */
  method StartOver(g: GameStore)
    modifies g
    ensures g.IsInitial() && g.gameSettings == old(g.gameSettings)
    ensures old(IsPlaying(g.gameOver, g.gameState.outcome)) ==>
      g.gameOver == old(g.gameOver) && g.gameState.outcome == old(g.gameState.outcome)
    ensures old(Consistent(g)) ==> Consistent(g)
  {
    g.ResetGame();
  }
}
