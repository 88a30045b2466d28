/**
 * Small pure rules of the terminal front end: colouring, command detection,
 * the typing-effect pause and the model menu choice.
 */
module Terminal {
  import opened Wrappers

  /** The ANSI escape sequence that resets all attributes. */
  const Reset: string := "\U{1b}[0m"

  /**
   * Text wrapped in a colour code and the reset code when colours are on
   * (standard output is a terminal), and the text unchanged otherwise.
   */
  function Colorize(colorsEnabled: bool, text: string, color: string): (r: string)
    ensures !colorsEnabled ==> r == text
    ensures colorsEnabled ==> |r| == |color| + |text| + |Reset|
    ensures colorsEnabled ==> color <= r && r[|color|..|color| + |text|] == text
    ensures colorsEnabled ==> r[|color| + |text|..] == Reset
  {
    if colorsEnabled then color + text + Reset else text
  }

  /** An input line is a command exactly when it starts with a slash. */
  function IsCommand(input: string): (b: bool)
    ensures b <==> "/" <= input
  {
    |input| > 0 && input[0] == '/'
  }

  /** Halving with C++ int division, which truncates toward zero. */
  function HalfTowardZero(d: int): (q: int)
    ensures 0 <= d ==> 0 <= d - 2 * q <= 1
    ensures d < 0 ==> -1 <= d - 2 * q <= 0
  {
    if d >= 0 then d / 2 else -((-d) / 2)
  }

  /**
   * The pause after printing c, for a base delay in milliseconds: four times
   * after a sentence end, twice after other punctuation, three times after a
   * line break, half (truncated) after a space, the base delay otherwise.
   */
  function TypingDelay(c: char, delayMs: int): (ms: int)
    ensures 0 <= delayMs ==> 0 <= ms <= 4 * delayMs
    ensures 0 <= delayMs && c != ' ' ==> delayMs <= ms
    ensures c !in ".!?,;: \n" ==> ms == delayMs
    ensures c == ' ' ==> ms == HalfTowardZero(delayMs)
  {
    if c == '.' || c == '!' || c == '?' then delayMs * 4
    else if c == ',' || c == ';' || c == ':' then delayMs * 2
    else if c == ' ' then HalfTowardZero(delayMs)
    else if c == '\n' then delayMs * 3
    else delayMs
  }

  /**
   * Every character of a class pauses as its representative does: '.' for
   * sentence ends, ',' for other punctuation, 'a' for ordinary characters.
   */
  lemma PauseByClass(c: char, delayMs: int)
    ensures c in ".!?" ==> TypingDelay(c, delayMs) == TypingDelay('.', delayMs)
    ensures c in ",;:" ==> TypingDelay(c, delayMs) == TypingDelay(',', delayMs)
    ensures c !in ".!?,;: \n" ==> TypingDelay(c, delayMs) == TypingDelay('a', delayMs)
  {
  }

  /**
   * With no base delay nothing pauses. For a positive base delay the classes
   * are strictly ordered: space, ordinary character, other punctuation, line
   * break, sentence end.
   */
  lemma PauseOrder(delayMs: int)
    requires 0 <= delayMs
    ensures delayMs == 0 ==> forall c :: TypingDelay(c, delayMs) == 0
    ensures 0 < delayMs ==> TypingDelay(' ', delayMs) < TypingDelay('a', delayMs)
    ensures 0 < delayMs ==> TypingDelay('a', delayMs) < TypingDelay(',', delayMs)
    ensures 0 < delayMs ==> TypingDelay(',', delayMs) < TypingDelay('\n', delayMs)
    ensures 0 < delayMs ==> TypingDelay('\n', delayMs) < TypingDelay('.', delayMs)
  {
  }

  /**
   * The model picked by a number typed at the menu: the menu numbers models
   * from 1, and a number outside 1..|models| picks nothing.
   */
  function SelectModel(models: seq<string>, choice: int): (picked: Option<string>)
    ensures picked.Some? <==> 1 <= choice <= |models|
    ensures picked.Some? ==> picked.value == models[choice - 1]
  {
    if choice >= 1 && choice <= |models| then Some(models[choice - 1]) else None
  }

  /** The number shown before each model in the menu selects exactly that model. */
  lemma MenuNumberSelects(models: seq<string>, i: nat)
    requires i < |models|
    ensures SelectModel(models, i + 1) == Some(models[i])
  {
  }
}
