/**
 * The game-log view: the style class of each entry type, the "mm:ss" time shown beside
 * an entry, and the list of lines the log modal renders.
 */
module Logs {
  import opened Js
  import opened Context
  import Game

  /** The entry types with a style of their own. */
  const KnownKinds: seq<string> := ["user", "model", "story", "interpretation", "effect"]

  /** `logClassNames(entry)`, on the entry's type. */
  function LogClassName(kind: string): (c: string)
    ensures c == "log-default" <==> kind !in KnownKinds
  {
    if kind == "user" then "bold text-white font-semibold text-violet-400"
    else if kind == "model" then "text-cyan-400"
    else if kind == "story" then "text-neutral-500"
    else if kind == "interpretation" then "bg-sky-800 rounded-md p-2 font-light"
    else if kind == "effect" then "font-bold text-amber-500"
    else "log-default"
  }

  /** Two different known types never share a style. */
  lemma ClassesDistinct(k1: string, k2: string)
    requires k1 in KnownKinds && k2 in KnownKinds && k1 != k2
    ensures LogClassName(k1) != LogClassName(k2)
  {
  }

  /** Every entry the turn handlers log has a type with its own style. */
  lemma HandlerEntriesStyled(choice: Choice, input: string, interpretation: Game.Interpretation, effect: Number, story: string)
    ensures forall e :: e in Game.ChoiceEntries(choice, effect) ==> LogClassName(e.kind) != "log-default"
    ensures forall e :: e in Game.TypedEntries(input, interpretation, effect) ==> LogClassName(e.kind) != "log-default"
    ensures LogClassName(LogEntry("story", story).kind) != "log-default"
  {
  }

  /** `Math.floor(diff / 60).toString().padStart(2, '0')`. */
  function MinutesPart(diff: int): string {
    PadStart(IntToString(diff / 60), 2, '0')
  }

  /** `(diff % 60).toString().padStart(2, '0')`, with JavaScript's truncating `%`. */
  function SecondsPart(diff: int): string {
    PadStart(IntToString(Remainder(diff, 60)), 2, '0')
  }

  /** The body of `relativeTimeFromFirstLog`, given the whole seconds elapsed since the first entry. */
  function RelativeTime(diff: int): string {
    MinutesPart(diff) + ":" + SecondsPart(diff)
  }

  /**
   * For a non-negative difference the text reads back as the difference: two or more
   * minute digits, exactly two second digits below 60, and 60 * minutes + seconds == diff.
   */
  lemma RelativeTimeDecodes(diff: int)
    requires diff >= 0
    ensures RelativeTime(diff) == MinutesPart(diff) + ":" + SecondsPart(diff)
    ensures AllDigits(MinutesPart(diff)) && |MinutesPart(diff)| >= 2
    ensures AllDigits(SecondsPart(diff)) && |SecondsPart(diff)| == 2
    ensures ParseDigits(SecondsPart(diff)) < 60
    ensures 60 * ParseDigits(MinutesPart(diff)) + ParseDigits(SecondsPart(diff)) == diff
  {
    MinutesDecode(diff);
    SecondsDecode(diff);
  }

  lemma MinutesDecode(diff: int)
    requires diff >= 0
    ensures AllDigits(MinutesPart(diff)) && |MinutesPart(diff)| >= 2
    ensures ParseDigits(MinutesPart(diff)) == diff / 60
  {
    var m := NatToString(diff / 60);
    ParseNatToString(diff / 60);
    PadWithZeros(m, 2);
  }

  lemma SecondsDecode(diff: int)
    requires diff >= 0
    ensures AllDigits(SecondsPart(diff)) && |SecondsPart(diff)| == 2
    ensures ParseDigits(SecondsPart(diff)) == diff % 60
  {
    var s := NatToString(diff % 60);
    ParseNatToString(diff % 60);
    PadWithZeros(s, 2);
  }

  /** Different non-negative differences show different times. */
  lemma RelativeTimeInjective(d1: int, d2: int)
    requires d1 >= 0 && d2 >= 0
    requires RelativeTime(d1) == RelativeTime(d2)
    ensures d1 == d2
  {
    RelativeTimeDecodes(d1);
    RelativeTimeDecodes(d2);
    SplitAtColon(MinutesPart(d1), SecondsPart(d1), MinutesPart(d2), SecondsPart(d2));
  }

  /** A text with a field of known width after the last colon splits one way only. */
  lemma SplitAtColon(m1: string, s1: string, m2: string, s2: string)
    requires m1 + ":" + s1 == m2 + ":" + s2
    requires |s1| == |s2|
    ensures m1 == m2 && s1 == s2
  {
    var t := m1 + ":" + s1;
    assert m1 == t[..|m1|] && m2 == t[..|m2|];
    assert s1 == t[|t| - |s1|..] && s2 == t[|t| - |s2|..];
  }

  /** The first entry, or any entry logged in the same second, shows "00:00". */
  lemma FirstEntryTime(diff: int)
    requires diff == 0
    ensures RelativeTime(diff) == "00:00"
  {
    assert NatToString(0) == "0";
    assert PadStart("0", 2, '0') == "00";
  }

  /** From 100 minutes on, the minutes field is wider than two digits and is not padded. */
  lemma LongGameMinutes(diff: int)
    requires diff >= 6000
    ensures |MinutesPart(diff)| >= 3
    ensures MinutesPart(diff) == NatToString(diff / 60)
  {
  }

  /** A negative difference keeps the sign in both fields: five seconds early reads "-1:-5". */
  lemma NegativeTime(diff: int)
    requires diff == -5
    ensures RelativeTime(diff) == "-1:-5"
  {
    assert diff / 60 == -1;
    assert Remainder(diff, 60) == -5;
    assert NatToString(1) == "1" && NatToString(5) == "5";
    assert IntToString(-1) == "-1" && IntToString(-5) == "-5";
  }

  /**
   * `relativeTimeFromFirstLog`: it reads the first entry's timestamp, so it needs one; `diff` is
   * the whole seconds from that entry's time to the argument's.
   */
  function RelativeTimeFromFirstLog(gameLog: seq<LogEntry>, diff: int): string
    requires |gameLog| > 0
  {
    RelativeTime(diff)
  }

  /** One rendered row of the log: the time, the style class and the entry's text. */
  datatype Line = Line(time: string, className: string, text: string)

  /** What the modal body shows. */
  datatype Rendered = NoLogs | Lines(lines: seq<Line>)

  /**
   * The modal body over `log`, where `diffs[i]` is the whole seconds between entry i and
   * the first entry: "No logs yet" for an empty log, otherwise one row per entry, in order.
   * The time of a row is only computed when the log has a first entry.
   */
  function RenderLog(log: seq<LogEntry>, diffs: seq<int>): (r: Rendered)
    requires |diffs| == |log|
    ensures log == [] <==> r == NoLogs
    ensures r.Lines? ==> |r.lines| == |log|
    ensures r.Lines? ==> forall i :: 0 <= i < |log| ==>
      r.lines[i] == Line(RelativeTime(diffs[i]), LogClassName(log[i].kind), log[i].text)
  {
    if log == [] then NoLogs
    else Lines(seq(|log|, i requires 0 <= i < |log| => Line(RelativeTimeFromFirstLog(log, diffs[i]), LogClassName(log[i].kind), log[i].text)))
  }
}
