/**
 * The fixed selection tables of the game: the difficulty presets, the narrative
 * languages and the HTML tags the sanitiser lets through.
 */
module Constants {
  import opened Wrappers

  /** One difficulty preset. `extraPrompts` is absent from the `medium` preset. */
  datatype Difficulty = Difficulty(
    key: string,
    displayLabel: string,
    icon: string,
    maxSteps: int,
    maxGainPoints: int,
    maxLosingPoints: int,
    hiringThreshold: int,
    extraPrompts: Option<string>)

  datatype Language = Language(key: string, flag: string, displayLabel: string)

  const TwoNegativeChoices := "Choices should include 1 positive effect and 2 negative effects on hireability"

  /** `DIFFICULTY_LEVELS`, in the order of the source table. */
  const DifficultyLevels: seq<Difficulty> := [
    Difficulty("easy", "Easy", "smile", 10, 10, 5, 60, Some("")),
    Difficulty("medium", "Medium", "meh", 10, 7, 5, 70, None),
    Difficulty("hard", "Hard", "frown", 10, 5, 7, 70, Some(TwoNegativeChoices)),
    Difficulty("ultraHard", "Ultra Hard", "skull-crossbones", 10, 3, 9, 62, Some(TwoNegativeChoices))
  ]

  /** `LANGUAGES`, in the order of the source table. */
  const Languages: seq<Language> := [
    Language("english", "https://flagcdn.com/us.svg", "English"),
    Language("spanish", "https://flagcdn.com/es.svg", "Spanish"),
    Language("french", "https://flagcdn.com/fr.svg", "French"),
    Language("german", "https://flagcdn.com/de.svg", "German"),
    Language("italian", "https://flagcdn.com/it.svg", "Italian"),
    Language("portuguese", "https://flagcdn.com/pt.svg", "Portuguese"),
    Language("lithuanian", "https://flagcdn.com/lt.svg", "Lithuanian"),
    Language("polish", "https://flagcdn.com/pl.svg", "Polish"),
    Language("russian", "https://flagcdn.com/ru.svg", "Russian")
  ]

  /** `ALLOWED_HTML_TAGS`. */
  const AllowedHtmlTags: seq<string> := ["br", "p", "b", "i", "strong", "em", "u"]

  /** The keys of the difficulty presets, in order. */
  function DifficultyKeys(): (keys: seq<string>)
    ensures |keys| == |DifficultyLevels|
    ensures forall i :: 0 <= i < |keys| ==> keys[i] == DifficultyLevels[i].key
  {
    seq(|DifficultyLevels|, i requires 0 <= i < |DifficultyLevels| => DifficultyLevels[i].key)
  }

  /** The keys of the languages, in order. */
  function LanguageKeys(): (keys: seq<string>)
    ensures |keys| == |Languages|
    ensures forall i :: 0 <= i < |keys| ==> keys[i] == Languages[i].key
  {
    seq(|Languages|, i requires 0 <= i < |Languages| => Languages[i].key)
  }

  predicate Distinct(xs: seq<string>) {
    forall i, j :: 0 <= i < j < |xs| ==> xs[i] != xs[j]
  }

  /** There are exactly four presets, with the distinct keys easy, medium, hard and ultraHard. */
  lemma DifficultyPresets()
    ensures DifficultyKeys() == ["easy", "medium", "hard", "ultraHard"]
    ensures Distinct(DifficultyKeys())
  {
  }

  /** Every preset plays ten steps; thresholds lie in [0, 100]; both point bounds are positive. */
  lemma PresetBounds()
    ensures forall d :: d in DifficultyLevels ==> d.maxSteps == 10 && d.maxSteps > 0
    ensures forall d :: d in DifficultyLevels ==> 0 <= d.hiringThreshold <= 100
    ensures forall d :: d in DifficultyLevels ==> d.maxGainPoints > 0 && d.maxLosingPoints > 0
  {
  }

  /** The hiring thresholds, in table order. */
  lemma PresetThresholds()
    ensures |DifficultyLevels| == 4
    ensures DifficultyLevels[0].hiringThreshold == 60
    ensures DifficultyLevels[1].hiringThreshold == 70
    ensures DifficultyLevels[2].hiringThreshold == 70
    ensures DifficultyLevels[3].hiringThreshold == 62
  {
  }

  /** `medium` carries no extra prompt, so the field is optional; the others carry one. */
  lemma MediumHasNoExtraPrompts()
    ensures DifficultyLevels[1].key == "medium" && DifficultyLevels[1].extraPrompts.None?
    ensures forall d :: d in DifficultyLevels && d.key != "medium" ==> d.extraPrompts.Some?
  {
  }

  /** Nine languages with distinct keys, English first; seven allowed tags. */
  lemma LanguageTable()
    ensures |Languages| == 9 && Distinct(LanguageKeys())
    ensures Languages[0].key == "english"
    ensures |AllowedHtmlTags| == 7 && Distinct(AllowedHtmlTags)
  {
  }
}
