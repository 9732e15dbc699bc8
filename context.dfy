/**
 * The game's state store: the value types it holds, the shallow merge behind
 * `setGameState`, and one object whose fields are the provider's eleven state
 * cells, with the operations the provider hands to its consumers.
 */
module Context {
  import opened Wrappers
  import opened Js
  import Constants

  datatype Outcome = Hired | Rejected

  /** The `gameState` cell. `progress` holds the player's own strings, one per committed turn. */
  datatype GameState = GameState(hireability: Number, progress: seq<string>, outcome: Option<Outcome>)

  /**
   * The partial object given to `setGameState`: a key left out of it is None here.
   * For `outcome`, Some(None) is an explicit `outcome: null`.
   */
  datatype GameStateUpdate = GameStateUpdate(
    hireability: Option<Number>,
    progress: Option<seq<string>>,
    outcome: Option<Option<Outcome>>)

  /** One choice of a story step, with its effect as the generator wrote it (for example "+4"). */
  datatype Choice = Choice(text: string, effect: string)

  /** A story step; `choices` is None when the generated object has no choices. */
  datatype Step = Step(story: string, choices: Option<seq<Choice>>)

  /** A diagnostic log entry; `kind` is the entry's `type` ("user", "story", "effect", ...). */
  datatype LogEntry = LogEntry(kind: string, text: string)

  /** A backlog message; `kind` is "model" or "user". */
  datatype Message = Message(kind: string, text: string)

  /** The `gameSettings` cell; `isDefault` is the `default: true` marker of the defaults. */
  datatype GameSettings = GameSettings(language: string, difficulty: Constants.Difficulty, isDefault: bool)

  /** `initialGameState`. */
  const InitialGameState: GameState := GameState(Num(50), [], None)

  /** `defaultGameSettings`: the first language, the first difficulty preset, marked as default. */
  const DefaultGameSettings: GameSettings :=
    GameSettings(Constants.Languages[0].key, Constants.DifficultyLevels[0], true)

  lemma InitialState()
    ensures InitialGameState.hireability == Num(50)
    ensures InitialGameState.progress == [] && InitialGameState.outcome == None
  {
  }

  lemma DefaultSettings()
    ensures DefaultGameSettings.language == "english"
    ensures DefaultGameSettings.difficulty == Constants.DifficultyLevels[0]
    ensures DefaultGameSettings.difficulty.key == "easy"
    ensures DefaultGameSettings.isDefault
  {
  }

  /** `{ ...prev, ...update }`: every key present in the update wins, every other key keeps its value. */
  function Merge(prev: GameState, update: GameStateUpdate): (next: GameState)
    ensures update.hireability.None? ==> next.hireability == prev.hireability
    ensures update.hireability.Some? ==> next.hireability == update.hireability.value
    ensures update.progress.None? ==> next.progress == prev.progress
    ensures update.progress.Some? ==> next.progress == update.progress.value
    ensures update.outcome.None? ==> next.outcome == prev.outcome
    ensures update.outcome.Some? ==> next.outcome == update.outcome.value
  {
    GameState(
      update.hireability.GetOr(prev.hireability),
      update.progress.GetOr(prev.progress),
      update.outcome.GetOr(prev.outcome))
  }

  /** The update with no keys: `{}`. */
  const NoChange := GameStateUpdate(None, None, None)

  /** `{ ...first, ...second }` on two partial updates. */
  function Combine(first: GameStateUpdate, second: GameStateUpdate): GameStateUpdate {
    GameStateUpdate(
      if second.hireability.Some? then second.hireability else first.hireability,
      if second.progress.Some? then second.progress else first.progress,
      if second.outcome.Some? then second.outcome else first.outcome)
  }

  /** Merging nothing changes nothing, merging twice is merging once, and two queued merges are one merge of the combined update. */
  lemma MergeLaws(prev: GameState, a: GameStateUpdate, b: GameStateUpdate)
    ensures Merge(prev, NoChange) == prev
    ensures Merge(Merge(prev, a), a) == Merge(prev, a)
    ensures Merge(Merge(prev, a), b) == Merge(prev, Combine(a, b))
  {
  }

  /** Setting only `outcome` keeps hireability and progress. */
  lemma MergeOutcomeOnly(prev: GameState, o: Option<Outcome>)
    ensures Merge(prev, GameStateUpdate(None, None, Some(o))) == GameState(prev.hireability, prev.progress, o)
  {
  }

  /** The provider's state cells, with the setters and helpers it exposes. */
  class GameStore {
    var gameState: GameState
    var currentStep: Option<Step>
    var userInput: string
    var loading: bool
    var error: Option<string>
    var gameLog: seq<LogEntry>
    var gameStarted: bool
    var gameOver: bool
    var conclusion: string
    var backLog: seq<Message>
    var gameSettings: GameSettings

    /**
     * The text the log keeps of a string: DOMPurify's sanitised markup, read back as the
     * `textContent` of a detached element (or "" when that is empty). The library is not
     * part of this model, so the store is given the function.
     */
    const textContent: string -> string

    /** The ten cells `resetGame` writes hold their initial values. */
    predicate IsInitial()
      reads this
    {
      && gameState == InitialGameState
      && currentStep == None
      && userInput == ""
      && !loading
      && error == None
      && gameLog == []
      && !gameStarted
      && !gameOver
      && conclusion == ""
      && backLog == []
    }

    /** The log entry `addGameLogEntry` stores for `entry`: same type, sanitised text. */
    function Sanitized(entry: LogEntry): (e: LogEntry)
      ensures e.kind == entry.kind
    {
      LogEntry(entry.kind, textContent(entry.text))
    }

    /** `GameProvider`: every cell starts from its `useState` initial value. */
    constructor (textContent: string -> string)
      ensures IsInitial()
      ensures gameSettings == DefaultGameSettings
      ensures this.textContent == textContent
    {
      gameState := InitialGameState;
      currentStep := None;
      userInput := "";
      loading := false;
      error := None;
      gameLog := [];
      gameStarted := false;
      gameOver := false;
      conclusion := "";
      backLog := [];
      gameSettings := DefaultGameSettings;
      this.textContent := textContent;
    }

    /** `setGameState` (that is, `updateGameState`): a shallow merge into the previous state. */
    method UpdateGameState(update: GameStateUpdate)
      modifies this`gameState
      ensures gameState == Merge(old(gameState), update)
    {
      gameState := Merge(gameState, update);
    }

    method SetCurrentStep(step: Option<Step>)
      modifies this`currentStep
      ensures currentStep == step
    {
      currentStep := step;
    }

    method SetUserInput(input: string)
      modifies this`userInput
      ensures userInput == input
    {
      userInput := input;
    }

    method SetLoading(value: bool)
      modifies this`loading
      ensures loading == value
    {
      loading := value;
    }

    method SetError(message: Option<string>)
      modifies this`error
      ensures error == message
    {
      error := message;
    }

    method SetGameOver(value: bool)
      modifies this`gameOver
      ensures gameOver == value
    {
      gameOver := value;
    }

    method SetConclusion(text: string)
      modifies this`conclusion
      ensures conclusion == text
    {
      conclusion := text;
    }

    method SetGameStarted(value: bool)
      modifies this`gameStarted
      ensures gameStarted == value
    {
      gameStarted := value;
    }

    method SetGameSettings(settings: GameSettings)
      modifies this`gameSettings
      ensures gameSettings == settings
    {
      gameSettings := settings;
    }

    method SetBackLogMessages(messages: seq<Message>)
      modifies this`backLog
      ensures backLog == messages
    {
      backLog := messages;
    }

    /** `addGameLogEntry`: appends one entry, of the same type, with its text sanitised; no timestamp is added. */
    method AddGameLogEntry(entry: LogEntry)
      modifies this`gameLog
      ensures gameLog == old(gameLog) + [Sanitized(entry)]
      ensures |gameLog| == |old(gameLog)| + 1 && gameLog[..|old(gameLog)|] == old(gameLog)
      ensures gameLog[|gameLog| - 1].kind == entry.kind
    {
      gameLog := gameLog + [Sanitized(entry)];
    }

    /** `addBackLogMessage`: appends exactly the message at the end. */
    method AddBackLogMessage(message: Message)
      modifies this`backLog
      ensures backLog == old(backLog) + [message]
      ensures |backLog| == |old(backLog)| + 1 && backLog[..|old(backLog)|] == old(backLog)
    {
      backLog := backLog + [message];
    }

    /**
     * `resetGame`: the ten game cells go back to their initial values, the settings stay.
     * Resetting a store that is already reset changes nothing.
     */
    method ResetGame()
      modifies this
      ensures IsInitial()
      ensures gameSettings == old(gameSettings)
      ensures old(IsInitial()) ==> unchanged(this)
    {
      gameState := InitialGameState;
      currentStep := None;
      userInput := "";
      loading := false;
      error := None;
      gameLog := [];
      gameStarted := false;
      gameOver := false;
      conclusion := "";
      backLog := [];
    }
  }
}
