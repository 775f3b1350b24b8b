/** Properties of the operand resolver and the handlers: how each kind of operand
    token is treated, when a nested operation is retried, and which inputs end an
    operation with no value. */
module CalculatorFacts {
  import opened Wrappers
  import opened Console
  import opened CLibrary
  import opened ResultMemory
  import opened Calculator

  /** With symbolic operands off, every token is a number to parse: "R", "P" and
      "1"/"2"/"3" included. */
  lemma LiteralOnlyWhenSymbolsOff<V>(lib: Lib<V>, mem: Memory<V>, prompt: string, input: seq<Token>)
    requires |input| > 0
    ensures Resolve(lib, mem, prompt, false, input) == Step(lib.parseDouble(FitBuffer(input[0])), input[1..])
  {
  }

  /** With symbolic operands on, exactly "R"/"r" gives the last result and exactly
      "P"/"p" the previous one, consuming that one token. */
  lemma MemoryReferences<V>(lib: Lib<V>, mem: Memory<V>, prompt: string, input: seq<Token>)
    requires |input| > 0
    ensures input[0] == "R" || input[0] == "r" ==>
      Resolve(lib, mem, prompt, true, input) == Step(Some(mem.last), input[1..])
    ensures input[0] == "P" || input[0] == "p" ==>
      Resolve(lib, mem, prompt, true, input) == Step(Some(mem.prev), input[1..])
  {
    if IsLastResultToken(input[0]) || IsPrevResultToken(input[0]) {
      assert FitBuffer(input[0]) == input[0];
    }
  }

  /** With symbolic operands on, "1"/"2"/"3" always start the matching sub-menu. A
      value from it is the operand; without one, the same request (same prompt,
      same flag) starts over on the input the sub-menu left. */
  lemma NestedOperandRunsHandler<V>(lib: Lib<V>, mem: Memory<V>, prompt: string, input: seq<Token>)
    requires |input| > 0 && IsNestedToken(input[0])
    ensures var nested := Nested(lib, mem, NestedMenu(input[0]), input[1..]);
      Resolve(lib, mem, prompt, true, input)
        == if nested.value.Some? then nested else Resolve(lib, mem, prompt, true, nested.rest)
  {
    assert FitBuffer(input[0]) == input[0];
  }

  /** "1" opens the math menu, "2" the trigonometry menu and "3" the conversion menu. */
  lemma NestedTokenOpensHandler<V>(lib: Lib<V>, mem: Memory<V>, t: string, input: seq<Token>)
    requires IsNestedToken(t)
    ensures t == "1" ==> Nested(lib, mem, NestedMenu(t), input) == HandleMath(lib, mem, input)
    ensures t == "2" ==> Nested(lib, mem, NestedMenu(t), input) == HandleTrig(lib, mem, input)
    ensures t == "3" ==> Nested(lib, mem, NestedMenu(t), input) == HandleConversion(lib, mem, input)
  {
  }

  /** Any other token is parsed as a number after one read, and its parse is the
      answer: a token that fails to parse gives no value at once, since only a
      nested operation that ends with no value is retried. */
  lemma OrdinaryTokenIsParsed<V>(lib: Lib<V>, mem: Memory<V>, prompt: string, symbolic: bool, input: seq<Token>)
    requires |input| > 0
    requires var token := FitBuffer(input[0]);
      !(symbolic && (IsLastResultToken(token) || IsPrevResultToken(token) || IsNestedToken(token)))
    ensures Resolve(lib, mem, prompt, symbolic, input) == Step(lib.parseDouble(FitBuffer(input[0])), input[1..])
    ensures lib.parseDouble(FitBuffer(input[0])).None? ==> Resolve(lib, mem, prompt, symbolic, input).value.None?
  {
  }

  /** `f` is a number parser that may differ from the library's only on "1", "2", "3". */
  ghost predicate AgreesOffNestedTokens<V>(lib: Lib<V>, f: string -> Option<V>) {
    forall t :: !IsNestedToken(t) ==> f(t) == lib.parseDouble(t)
  }

  /** Where symbolic operands are allowed, "1", "2" and "3" never reach the number
      parser: whatever it would make of them, nothing the resolver produces changes,
      however deeply operations nest. */
  lemma {:induction false} NestedTokensNeverParsed<V>(lib: Lib<V>, f: string -> Option<V>, mem: Memory<V>,
                                                      prompt: string, input: seq<Token>)
    requires AgreesOffNestedTokens(lib, f)
    ensures Resolve(lib, mem, prompt, true, input) == Resolve(lib.(parseDouble := f), mem, prompt, true, input)
    decreases |input|, 0
  {
    if |input| > 0 {
      var token := FitBuffer(input[0]);
      if IsNestedToken(token) && !IsLastResultToken(token) && !IsPrevResultToken(token) {
        var nested := Nested(lib, mem, NestedMenu(token), input[1..]);
        NestedNeverParses(lib, f, mem, NestedMenu(token), input[1..]);
        if nested.value.None? {
          NestedTokensNeverParsed(lib, f, mem, prompt, nested.rest);
        }
      }
    }
  }

  lemma {:induction false} PairNeverParses<V>(lib: Lib<V>, f: string -> Option<V>, mem: Memory<V>,
                                              firstPrompt: string, secondPrompt: string, input: seq<Token>)
    requires AgreesOffNestedTokens(lib, f)
    ensures ResolvePair(lib, mem, firstPrompt, secondPrompt, input)
         == ResolvePair(lib.(parseDouble := f), mem, firstPrompt, secondPrompt, input)
    decreases |input|, 1
  {
    var a := Resolve(lib, mem, firstPrompt, true, input);
    NestedTokensNeverParsed(lib, f, mem, firstPrompt, input);
    if a.value.Some? {
      NestedTokensNeverParsed(lib, f, mem, secondPrompt, a.rest);
    }
  }

  lemma {:induction false} MathNeverParses<V>(lib: Lib<V>, f: string -> Option<V>, mem: Memory<V>,
                                              choice: int, input: seq<Token>)
    requires AgreesOffNestedTokens(lib, f)
    ensures MathOperation(lib, mem, choice, input) == MathOperation(lib.(parseDouble := f), mem, choice, input)
    decreases |input|, 2
  {
    if choice == 6 || choice == 7 || choice == 8 {
      NestedTokensNeverParsed(lib, f, mem, SinglePrompt, input);
    } else if choice == 10 || choice == 5 {
      IntegerOperandsNeverParse(lib, f, mem, choice, input);
    } else {
      PairNeverParses(lib, f, mem, FirstPrompt, SecondPrompt, input);
    }
  }

  /** Factorial and remainder read plain integers, so the number parser for doubles
      plays no part in them at all. */
  lemma IntegerOperandsNeverParse<V>(lib: Lib<V>, f: string -> Option<V>, mem: Memory<V>,
                                     choice: int, input: seq<Token>)
    requires choice == 10 || choice == 5
    ensures MathOperation(lib, mem, choice, input) == MathOperation(lib.(parseDouble := f), mem, choice, input)
  {
  }

  lemma {:induction false} TrigNeverParses<V>(lib: Lib<V>, f: string -> Option<V>, mem: Memory<V>,
                                              choice: int, input: seq<Token>)
    requires AgreesOffNestedTokens(lib, f)
    ensures TrigOperation(lib, mem, choice, input) == TrigOperation(lib.(parseDouble := f), mem, choice, input)
    decreases |input|, 2
  {
    if choice == 5 {
      PairNeverParses(lib, f, mem, SideAPrompt, SideBPrompt, input);
    } else {
      NestedTokensNeverParsed(lib, f, mem, AnglePrompt, input);
    }
  }

  lemma {:induction false} ConversionNeverParses<V>(lib: Lib<V>, f: string -> Option<V>, mem: Memory<V>,
                                                    choice: int, input: seq<Token>)
    requires AgreesOffNestedTokens(lib, f)
    ensures ConversionOperation(lib, mem, choice, input)
         == ConversionOperation(lib.(parseDouble := f), mem, choice, input)
    decreases |input|, 2
  {
    if choice == 1 || choice == 3 {
      NestedTokensNeverParsed(lib, f, mem, DecimalPrompt, input);
    }
  }

  lemma {:induction false} NestedNeverParses<V>(lib: Lib<V>, f: string -> Option<V>, mem: Memory<V>,
                                                menu: Menu, input: seq<Token>)
    requires AgreesOffNestedTokens(lib, f)
    ensures Nested(lib, mem, menu, input) == Nested(lib.(parseDouble := f), mem, menu, input)
    decreases |input|, 4
  {
    match menu
    case MathMenu =>
      var choice := ReadMenuChoice(lib.parseInt, input, MathBack);
      if choice.value != -1 && choice.value != MathBack {
        MathNeverParses(lib, f, mem, choice.value, choice.rest);
      }
    case TrigMenu =>
      var choice := ReadMenuChoice(lib.parseInt, input, TrigBack);
      if choice.value != -1 && choice.value != TrigBack {
        TrigNeverParses(lib, f, mem, choice.value, choice.rest);
      }
    case ConversionMenu =>
      var choice := ReadMenuChoice(lib.parseInt, input, ConversionBack);
      if choice.value != -1 && choice.value != ConversionBack {
        ConversionNeverParses(lib, f, mem, choice.value, choice.rest);
      }
  }
}
