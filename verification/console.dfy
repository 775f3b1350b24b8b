/** Console input as a finite sequence of whitespace-delimited tokens. Every read
    takes the next token; a read at the end of the input fails. */
module Console {
  import opened Wrappers
  import opened Machine

  type Token = string

  /** Longest token the calculator's `%63s` reads keep. */
  const BufferChars: nat := 63

  /** A read together with the input left after it. */
  datatype Step<T> = Step(value: T, rest: seq<Token>)

  /** `rest` is what remains of `input` after reading some tokens from its front. */
  predicate Suffix(rest: seq<Token>, input: seq<Token>) {
    |rest| <= |input| && rest == input[|input| - |rest|..]
  }

  /** Reading from `input` ends at `rest`, and takes at least one token when there is one. */
  predicate Consumes(input: seq<Token>, rest: seq<Token>) {
    Suffix(rest, input) && (|input| > 0 ==> |rest| < |input|)
  }

  lemma SuffixTransitive(a: seq<Token>, b: seq<Token>, c: seq<Token>)
    requires Suffix(a, b) && Suffix(b, c)
    ensures Suffix(a, c)
  {
    assert c[|c| - |b|..][|b| - |a|..] == c[|c| - |a|..];
  }

  /** The input after the token at its front, if any. */
  function Tail(input: seq<Token>): (rest: seq<Token>)
    ensures Consumes(input, rest)
  {
    if |input| == 0 then [] else input[1..]
  }

  /** What a `%63s` read keeps of a token. */
  function FitBuffer(t: Token): (kept: string)
    ensures |kept| <= BufferChars
    ensures kept <= t
    ensures |t| <= BufferChars ==> kept == t
    ensures |t| > BufferChars ==> kept == t[..BufferChars]
  {
    if |t| <= BufferChars then t else t[..BufferChars]
  }

  /** `scanf("%63s", ...)`: fails only at the end of the input. */
  function ReadToken(input: seq<Token>): (r: Step<Option<string>>)
    ensures r.rest == Tail(input)
    ensures r.value.None? <==> |input| == 0
    ensures r.value.Some? ==> |r.value.value| <= BufferChars && r.value.value <= input[0]
    ensures |input| > 0 ==> r.value == Some(FitBuffer(input[0]))
  {
    if |input| == 0 then Step(None, [])
    else Step(Some(FitBuffer(input[0])), input[1..])
  }

  /** A numeric `scanf` conversion of the next token; a token that does not convert
      is discarded with the rest of its line. */
  function ReadParsed<T>(parse: string -> Option<T>, input: seq<Token>): (r: Step<Option<T>>)
    ensures r.rest == Tail(input)
    ensures |input| > 0 ==> r.value == parse(input[0])
    ensures |input| == 0 ==> r.value.None?
  {
    if |input| == 0 then Step(None, []) else Step(parse(input[0]), input[1..])
  }

  /** `get_menu_choice(maxChoice)`: the choice when it is a number in 1..maxChoice,
      otherwise -1. */
  function MenuChoice(parsed: Option<int>, maxChoice: int): (choice: int)
    ensures choice == -1 || 1 <= choice <= maxChoice
    ensures choice != -1 <==> parsed.Some? && 1 <= parsed.value <= maxChoice
    ensures choice != -1 ==> parsed == Some(choice)
  {
    match parsed
    case None => -1
    case Some(c) => if c < 1 || c > maxChoice then -1 else c
  }

  /** Reads a menu choice from the next token. */
  function ReadMenuChoice(parse: string -> Option<int32>, input: seq<Token>, maxChoice: int): (r: Step<int>)
    ensures r.rest == Tail(input)
    ensures r.value == -1 || 1 <= r.value <= maxChoice
    ensures |input| == 0 ==> r.value == -1
    ensures |input| > 0 ==> r.value == MenuChoice(parse(input[0]), maxChoice)
  {
    var token := ReadParsed(parse, input);
    Step(MenuChoice(token.value, maxChoice), token.rest)
  }
}
