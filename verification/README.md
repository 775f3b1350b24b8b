# Console calculator — a Dafny model of its integer and control-flow logic

The calculator offers arithmetic, trigonometric and number-base operations from
three sub-menus, and keeps a two-slot memory: R (last result) and P (previous
result). Its central mechanism is the operand resolver `get_double_input`. Where
symbolic operands are allowed, the resolver takes "R"/"P" as memory references.
It takes "1"/"2"/"3" as a request to run a whole nested operation whose value
becomes the operand. When that nested operation ends with no value, the resolver
asks for the same operand again.

This project models that logic in `Functions.c`:

- `ResultMemory`: `update_results` over an explicit `Option`, plus the history
  after a series of top-level outcomes.
- `Console`: input as a finite sequence of tokens, the 63-character input buffer,
  and `get_menu_choice`.
- `Calculator`: the resolver and the three handlers as mutually recursive pure
  functions. Each returns `Step(value, rest)`, an optional value and the tokens
  left unread. Every call reads at least one token, so `|input|` bounds the
  recursion, including the retry after a failed nested operation.
- `IntegerOps`: `factorial`, with the 64-bit product loop, and `remainder_op`,
  with C99 truncated `%`.
- `BaseConversion`: `bin_to_dec` as its right-to-left scan, and `dec_to_bin` as
  the text it prints.
- `CLibrary`: everything taken from the C library and the floating-point unit,
  over an abstract number type `V` standing for `double`. This covers number
  parsing, `exp`/`log`/`pow`/`hypot`/trigonometry, the `(double)` casts and the
  `1e-9` tolerance tests. Each one is a field of the `Lib<V>` record, so the model
  fixes how the calculator combines them but not what they compute. A NaN result
  is `None`.
- `CalculatorFacts` and `HandlerFacts`: lemmas about the resolver and the handlers.

The memory is a parameter of the resolver and the handlers and is never returned
by them. So a nested operation cannot change R or P; only `UpdateResults` does.

`bin_to_dec(dec_to_bin(n))` gives back `n` only for `n >= 0`. For negative `n`
the printed text starts with '-', which `bin_to_dec` rejects with -1
(`BaseConversion.DecToBinRoundTrip`).

Two other consequences of the code show up in the model:
- `hex_to_dec` uses -1 as its error value. So a hexadecimal text that converts to
  -1 (for example "-1") also gives no value (`HandlerFacts.HexadecimalChoice`).
- Conversion choices 5 and 6 only print, so they never give a value.

## Model

| member | source | states |
|---|---|---|
| ResultMemory.UpdateResults | Functions.c:12-18 | a value moves R into P and becomes R; no value leaves both slots unchanged |
| ResultMemory.ReplayKeepsLastTwo | Functions.c:12-18 | after any series of top-level outcomes, R is the latest value and P the one before it; the starting slots remain only while fewer than two values have arrived |
| Console.MenuChoice | Functions.c:54-58 | the choice is accepted exactly when it is a number in 1..max, and is then returned unchanged; otherwise the result is -1 |
| Console.ReadMenuChoice | Functions.c:43-59 | reads one token; at the end of input, or for a token that is not a number, the choice is -1; the result is always -1 or in 1..max |
| Console.FitBuffer | Functions.c:70-82 | a `%63s` read keeps a token of at most 63 characters whole, and of a longer token exactly its first 63 characters |
| Console.ReadToken | Functions.c:513-516 | a string read fails only at the end of input, and otherwise yields the buffered next token and reads exactly that token |
| Calculator.Resolve | Functions.c:69-136 | every resolution reads tokens from the front of the input, at least one when there is one, which bounds the recursion including the retry |
| Calculator.Nested | Functions.c:101-115 | a nested operation reads tokens from the front of the input, at least one |
| Calculator.ResolvePair | Functions.c:404-407 | the second operand is requested only when the first has a value, from where the first left off; the pair has a value exactly when both operands have one |
| Calculator.HandleMath | Functions.c:340-421 | an invalid choice or "Back" (11) gives no value after reading only the menu token; the handler always reads at least one token |
| Calculator.MathOperation | Functions.c:357-420 | every math operation reads its operands from the front of the input that follows the menu token |
| Calculator.HandleTrig | Functions.c:426-472 | an invalid choice or "Back" (6) gives no value after reading only the menu token; the handler always reads at least one token |
| Calculator.TrigOperation | Functions.c:441-471 | the hypotenuse has a value exactly when both sides do, and stops where the side reads stopped; an angle operation gives no value when the angle has none, and stops where the angle read stopped |
| Calculator.HandleConversion | Functions.c:477-541 | an invalid choice or "Back" (7) gives no value after reading only the menu token; the handler always reads at least one token |
| Calculator.ConversionOperation | Functions.c:495-541 | decimal-to-binary and decimal-to-hexadecimal have a value exactly when the resolved operand does; every other choice reads exactly one string token, and hex-to-binary and binary-to-hex never give a value |
| CLibrary.Divide | Functions.c:144-150 | a zero divisor gives no value; any other divisor gives the quotient |
| CLibrary.Logarithm | Functions.c:159-165 | the logarithm has a value exactly when x is positive, and it is then log(x) |
| CLibrary.TangentDeg | Functions.c:205-214 | no value where the cosine vanishes; elsewhere the library tangent |
| CLibrary.CotangentDeg | Functions.c:215-231 | where the tangent has no value the cotangent is 0 unless the sine vanishes too; where the tangent has a value t it is none when t vanishes and 1/t otherwise |
| CLibrary.HexToDec | Functions.c:305-313 | -1 exactly when the text does not convert or converts to -1; otherwise the converted value |
| CalculatorFacts.LiteralOnlyWhenSymbolsOff | Functions.c:129-135 | with symbolic operands off, every token, including "R", "P" and "1"-"3", goes to the number parser, and nothing else is read |
| CalculatorFacts.MemoryReferences | Functions.c:90-99 | with symbolic operands on, exactly "R"/"r" yields the last result and exactly "P"/"p" the previous one, reading just that token |
| CalculatorFacts.NestedOperandRunsHandler | Functions.c:101-125 | "1"/"2"/"3" always run the nested operation of their sub-menu; its value is the operand, and without one the resolver starts over with the same prompt and flag on the remaining input |
| CalculatorFacts.NestedTokenOpensHandler | Functions.c:107-115 | "1" runs the math handler, "2" the trigonometry handler and "3" the conversion handler |
| CalculatorFacts.OrdinaryTokenIsParsed | Functions.c:129-135 | any token that is not a memory reference or nested-menu request (or every token, with symbolic operands off) gives exactly what the number parser makes of its buffered text, after one token; a token that does not parse gives no value without a retry |
| CalculatorFacts.NestedTokensNeverParsed | Functions.c:90-127 | where symbolic operands are allowed, what the number parser would make of "1"/"2"/"3" never affects any resolution, at any nesting depth |
| CalculatorFacts.NestedNeverParses | Functions.c:107-115 | the same independence for a nested operation of each sub-menu |
| CalculatorFacts.PairNeverParses | Functions.c:404-407 | the same independence for the two operands of a binary operation |
| CalculatorFacts.MathNeverParses | Functions.c:357-420 | the same independence for every math operation |
| CalculatorFacts.IntegerOperandsNeverParse | Functions.c:371-400 | factorial and remainder read plain integers, so the number parser for doubles plays no part in them |
| CalculatorFacts.TrigNeverParses | Functions.c:441-471 | the same independence for every trigonometric operation |
| CalculatorFacts.ConversionNeverParses | Functions.c:495-541 | the same independence for every conversion |
| HandlerFacts.MathDispatch | Functions.c:353-355 | a valid math choice other than "Back" reads only the menu token and runs that operation on the rest of the input |
| HandlerFacts.TrigDispatch | Functions.c:437-439 | a valid trigonometry choice other than "Back" reads only the menu token and runs that operation on the rest of the input |
| HandlerFacts.ConversionDispatch | Functions.c:491-493 | a valid conversion choice other than "Back" reads only the menu token and runs that conversion on the rest of the input |
| HandlerFacts.MathTwoOperands | Functions.c:402-420 | add, subtract, multiply, divide and power take both operands from the pair read and run `add`, `subtract`, `multiply`, `divide` and `power` on them; a pair with no value gives no value |
| HandlerFacts.MathSingleOperand | Functions.c:357-368 | exp, log and abs give no value when their operand has none, and otherwise run `exp`, `logarithm` and `fabs` on it |
| HandlerFacts.TrigAngleOperand | Functions.c:454-471 | sine, cosine, tangent and cotangent give no value when the angle has none, and otherwise run `sine_deg`, `cosine_deg`, `tangent_deg` and `cotangent_deg` on it |
| HandlerFacts.MathSecondOperandNeedsFirst | Functions.c:404-407 | for add, subtract, multiply, divide and power, the second operand is not requested when the first has no value, and a missing second operand gives no value |
| HandlerFacts.HypotenuseSecondSideNeedsFirst | Functions.c:442-452 | side b is not requested when side a has no value; a side b with no value gives no value; with both sides the result is their hypotenuse |
| HandlerFacts.DivisionByZeroGivesNoValue | Functions.c:144-150 | division by a zero second operand gives no value |
| HandlerFacts.LogarithmNeedsPositive | Functions.c:159-165 | the logarithm has a value exactly when its operand has one and is positive |
| HandlerFacts.FactorialChoice | Functions.c:371-383 | the factorial reads one integer token without symbolic operands and has a value exactly when n is in 0..20; that value is n! |
| HandlerFacts.RemainderChoice | Functions.c:385-400 | the remainder reads two integer tokens without symbolic operands; a bad first token stops it before the second is read; a bad second token gives no value after both tokens; a zero divisor gives no value; otherwise the value is the C99 remainder |
| HandlerFacts.TangentAsymptotes | Functions.c:205-231 | where the cosine vanishes the tangent has no value, and the cotangent is 0 unless the sine vanishes too |
| HandlerFacts.CotangentOfTangent | Functions.c:226-230 | away from the tangent's asymptotes the cotangent choice has no value where the tangent vanishes, and is otherwise the tangent's reciprocal |
| HandlerFacts.BinaryChoice | Functions.c:518-525 | binary-to-decimal has a value exactly when the buffered token is all binary digits; the value is the numeral's value |
| HandlerFacts.HexadecimalChoice | Functions.c:526-532 | hexadecimal-to-decimal has a value exactly when the text converts to something other than -1 |
| HandlerFacts.PrintOnlyConversionsGiveNoValue | Functions.c:513-541 | hex-to-binary and binary-to-hex read their string token and never give a value |
| HandlerFacts.DecimalConversionsTruncate | Functions.c:495-511 | decimal-to-binary and decimal-to-hexadecimal give back their operand truncated to an integer, and no value when the operand has none |
| HandlerFacts.NestedSineScenario | Functions.c:101-120 | the input "2", "1", "90" runs a nested sine of 90 degrees, and its value is the operand |
| HandlerFacts.CancelledNestedScenario | Functions.c:121-125 | backing out of a nested trigonometry menu makes the resolver ask again; "R" then gives the last result |
| HandlerFacts.MemoryScenario | Functions.c:12-18 | from (0, 0), results 5 and 12 give R = 12 and P = 5, and a failure in between changes nothing |
| IntegerOps.FactFitsU64 | Functions.c:182-186 | every factorial up to 20 is at least 1 and below 2^64 |
| IntegerOps.ProductLoop | Functions.c:189-193 | the product loop on a wrapping 64-bit accumulator computes n! exactly for n up to 20 |
| IntegerOps.Factorial | Functions.c:177-194 | the result is 0 exactly for n < 0 or n > 20; otherwise it is n!, with 0! = 1, and below 2^64 |
| IntegerOps.RemainderOp | Functions.c:151-157 | 0 for a zero divisor; otherwise a == q*b + r with q the quotient truncated toward zero, abs(r) < abs(b), and r is zero or has the sign of a |
| IntegerOps.RemainderIsUnique | Functions.c:151-157 | the truncated quotient and its remainder are the only pair with a remainder smaller than the divisor that carries the dividend's sign |
| BaseConversion.BinScan | Functions.c:282-291 | the right-to-left scan returns -1 when an unscanned character is not a binary digit, and otherwise the numeral's value |
| BaseConversion.BinToDec | Functions.c:277-293 | -1 exactly when some character is not '0' or '1'; otherwise the sum of 2^k over the '1' digits k places from the right, which is non-negative and fits a long long; the empty string gives 0 |
| BaseConversion.LowBitsFirst | Functions.c:259-262 | the digit loop fills at most 64 buffer places |
| BaseConversion.LowBitsLength | Functions.c:259-262 | a value below 2^k fills at most k places, so the 64-place limit never cuts a long long magnitude |
| BaseConversion.LowBitsSpell | Functions.c:264-270 | printed in reverse, the buffer is a binary numeral for the value, with a leading '1' |
| BaseConversion.DecToBin | Functions.c:243-272 | "0" for 0; otherwise "-" exactly for a negative input, followed by the binary digits of the magnitude, starting with '1' |
| BaseConversion.DecToBinRoundTrip | Functions.c:243-293 | reading back the printed text gives n for n >= 0; for n < 0 the '-' makes bin_to_dec reject it |

## Left out

- Console output (`printf` of prompts, results and error messages) and
  `display_menu` (Functions.c:23-36) are not modelled. A prompt only decides what
  is printed, so it is carried along unchanged.
- The input is a finite sequence of whitespace-separated tokens, and every read
  takes one token. The `while (getchar() != '\n')` loops that discard the rest of
  a line (Functions.c:47, 52, 83, 88) are not modelled, so the model matches the
  program when each input line holds one word. At the end of input a read gives
  no value; the C loops would spin forever there.
- Calculator.MathOperation: the remainder's two `scanf("%lld")` reads
  (Functions.c:389, 391) have no line drain between them, so in C the second read
  carries on inside what the first left of its word: "7-3" reads a = 7 and then
  b = -3. The model reads each operand as a whole token and does not reproduce
  such partial-word reads.
- Number parsing (`sscanf "%lf"`, `scanf "%d"`/`"%lld"`, `sscanf "%llx"`), the
  floating-point formulas, the `1e-9` tolerance tests and the `(double)` casts are
  abstract fields of `CLibrary.Lib`. They include the `double` to `long long`
  truncation of conversion choices 1 and 3, which C leaves undefined out of range.
  Only the guards and how the handlers combine these routines are modelled.
- The hexadecimal printing of `dec_to_hex`, `hex_to_bin` and `bin_to_hex`
  (Functions.c:298-335) is output only. `hex_to_dec` is kept, as the abstract
  parser plus its -1 error value.
- The binary text that conversion choice 1 prints is not part of the handler's
  result. `dec_to_bin` is modelled on its own, as the text it prints.
- The main loop, "Clear/Restart", "Exit" and the initial values of R and P are
  not part of this model: the file that holds them is not part of it either.
  `Calculator.h` declares globals and prototypes only.
- Calculator.RemainderValue: C leaves `LLONG_MIN % -1` undefined, and the process
  usually traps there. For that one operand pair the model gives no value;
  `IntegerOps.RemainderOp` excludes the pair with a precondition.
- BaseConversion.DecToBin: excludes `LLONG_MIN`, whose `llabs` is undefined in C.
- BaseConversion.BinToDec: requires at most 63 characters, which the input buffer
  guarantees. For exactly 63 characters, the final `base *= 2` overflows a
  `long long` in C; that value is never used, and the model's `base` is unbounded.
- Recursion depth: the C resolver can nest without limit and can exhaust the
  stack. In the model, nesting is bounded by the length of the input.
