/** Properties of the three handlers: operands are read in order and only while the
    earlier ones have values, and the domain guards and error values of the
    numeric library end the operation with no value. */
module HandlerFacts {
  import opened Wrappers
  import opened Console
  import opened CLibrary
  import opened ResultMemory
  import opened IntegerOps
  import opened BaseConversion
  import opened Calculator

  /** The menu choice a handler reads from `input[0]`. */
  predicate Chooses<V>(lib: Lib<V>, input: seq<Token>, choice: int) {
    |input| > 0 && lib.parseInt(input[0]) == Some(choice)
  }

  /** A valid math choice other than "Back" reads just the menu token and runs the
      chosen operation on the rest of the input. */
  lemma MathDispatch<V>(lib: Lib<V>, mem: Memory<V>, input: seq<Token>, choice: int)
    requires 1 <= choice < MathBack && Chooses(lib, input, choice)
    ensures HandleMath(lib, mem, input) == MathOperation(lib, mem, choice, input[1..])
  {
    var menu := ReadMenuChoice(lib.parseInt, input, MathBack);
    assert menu.value == choice && menu.rest == input[1..];
  }

  /** A valid trigonometry choice other than "Back" reads just the menu token and
      runs the chosen operation on the rest of the input. */
  lemma TrigDispatch<V>(lib: Lib<V>, mem: Memory<V>, input: seq<Token>, choice: int)
    requires 1 <= choice < TrigBack && Chooses(lib, input, choice)
    ensures HandleTrig(lib, mem, input) == TrigOperation(lib, mem, choice, input[1..])
  {
    var menu := ReadMenuChoice(lib.parseInt, input, TrigBack);
    assert menu.value == choice && menu.rest == input[1..];
  }

  /** A valid conversion choice other than "Back" reads just the menu token and runs
      the chosen conversion on the rest of the input. */
  lemma ConversionDispatch<V>(lib: Lib<V>, mem: Memory<V>, input: seq<Token>, choice: int)
    requires 1 <= choice < ConversionBack && Chooses(lib, input, choice)
    ensures HandleConversion(lib, mem, input) == ConversionOperation(lib, mem, choice, input[1..])
  {
    var menu := ReadMenuChoice(lib.parseInt, input, ConversionBack);
    assert menu.value == choice && menu.rest == input[1..];
  }

  /** The two-operand floating operations of the math menu take both operands from
      `ResolvePair`, which asks for the second only when the first has a value. */
  lemma MathTwoOperands<V>(lib: Lib<V>, mem: Memory<V>, choice: int, input: seq<Token>)
    requires choice == 1 || choice == 2 || choice == 3 || choice == 4 || choice == 9
    ensures var ab := ResolvePair(lib, mem, FirstPrompt, SecondPrompt, input);
      var r := MathOperation(lib, mem, choice, input);
      && r.rest == ab.rest
      && (ab.value.None? ==> r.value.None?)
      && (ab.value.Some? ==>
            var (a, b) := ab.value.value;
            && (choice == 1 ==> r.value == lib.add(a, b))
            && (choice == 2 ==> r.value == lib.subtract(a, b))
            && (choice == 3 ==> r.value == lib.multiply(a, b))
            && (choice == 4 ==> r.value == Divide(lib, a, b))
            && (choice == 9 ==> r.value == lib.power(a, b)))
  {
  }

  /** exp, log and |x| need their one operand: without it they give no value, and
      with it they run `exp`, `logarithm` and `fabs` respectively. */
  lemma MathSingleOperand<V>(lib: Lib<V>, mem: Memory<V>, input: seq<Token>, choice: int)
    requires choice == 6 || choice == 7 || choice == 8
    requires Chooses(lib, input, choice)
    ensures var x := Resolve(lib, mem, SinglePrompt, true, input[1..]);
      var r := HandleMath(lib, mem, input);
      && r.rest == x.rest
      && (x.value.None? ==> r.value.None?)
      && (x.value.Some? ==>
            && (choice == 6 ==> r.value == Some(lib.exp(x.value.value)))
            && (choice == 7 ==> r.value == Logarithm(lib, x.value.value))
            && (choice == 8 ==> r.value == Some(lib.fabs(x.value.value))))
  {
    MathDispatch(lib, mem, input, choice);
  }

  /** The angle operations need their angle: without it they give no value, and with
      it they run `sine_deg`, `cosine_deg`, `tangent_deg` and `cotangent_deg`. */
  lemma TrigAngleOperand<V>(lib: Lib<V>, mem: Memory<V>, input: seq<Token>, choice: int)
    requires 1 <= choice <= 4 && Chooses(lib, input, choice)
    ensures var angle := Resolve(lib, mem, AnglePrompt, true, input[1..]);
      var r := HandleTrig(lib, mem, input);
      && r.rest == angle.rest
      && (angle.value.None? ==> r.value.None?)
      && (angle.value.Some? ==>
            && (choice == 1 ==> r.value == lib.sinDeg(angle.value.value))
            && (choice == 2 ==> r.value == lib.cosDeg(angle.value.value))
            && (choice == 3 ==> r.value == TangentDeg(lib, angle.value.value))
            && (choice == 4 ==> r.value == CotangentDeg(lib, angle.value.value)))
  {
    TrigDispatch(lib, mem, input, choice);
  }

  /** The two-operand floating operations of the math menu ask for the second operand
      only when the first one has a value. */
  lemma MathSecondOperandNeedsFirst<V>(lib: Lib<V>, mem: Memory<V>, input: seq<Token>, choice: int)
    requires choice == 1 || choice == 2 || choice == 3 || choice == 4 || choice == 9
    requires Chooses(lib, input, choice)
    ensures var a := Resolve(lib, mem, FirstPrompt, true, input[1..]);
      a.value.None? ==> HandleMath(lib, mem, input) == Step(None, a.rest)
    ensures var a := Resolve(lib, mem, FirstPrompt, true, input[1..]);
      var b := Resolve(lib, mem, SecondPrompt, true, a.rest);
      a.value.Some? && b.value.None? ==> HandleMath(lib, mem, input) == Step(None, b.rest)
  {
    MathDispatch(lib, mem, input, choice);
    MathTwoOperands(lib, mem, choice, input[1..]);
  }

  /** The hypotenuse asks for side b only when side a has a value. */
  lemma HypotenuseSecondSideNeedsFirst<V>(lib: Lib<V>, mem: Memory<V>, input: seq<Token>)
    requires Chooses(lib, input, 5)
    ensures var a := Resolve(lib, mem, SideAPrompt, true, input[1..]);
      a.value.None? ==> HandleTrig(lib, mem, input) == Step(None, a.rest)
    ensures var a := Resolve(lib, mem, SideAPrompt, true, input[1..]);
      var b := Resolve(lib, mem, SideBPrompt, true, a.rest);
      a.value.Some? && b.value.Some? ==>
        HandleTrig(lib, mem, input) == Step(Some(lib.hypot(a.value.value, b.value.value)), b.rest)
    ensures var a := Resolve(lib, mem, SideAPrompt, true, input[1..]);
      var b := Resolve(lib, mem, SideBPrompt, true, a.rest);
      a.value.Some? && b.value.None? ==> HandleTrig(lib, mem, input) == Step(None, b.rest)
  {
    TrigDispatch(lib, mem, input, 5);
  }

  /** Dividing by zero gives no value. */
  lemma DivisionByZeroGivesNoValue<V>(lib: Lib<V>, mem: Memory<V>, input: seq<Token>)
    requires Chooses(lib, input, 4)
    ensures var a := Resolve(lib, mem, FirstPrompt, true, input[1..]);
      var b := Resolve(lib, mem, SecondPrompt, true, a.rest);
      a.value.Some? && b.value.Some? && lib.isZero(b.value.value) ==>
        HandleMath(lib, mem, input) == Step(None, b.rest)
  {
    MathDispatch(lib, mem, input, 4);
    MathTwoOperands(lib, mem, 4, input[1..]);
  }

  /** The logarithm has a value exactly when its operand has one and is positive. */
  lemma LogarithmNeedsPositive<V>(lib: Lib<V>, mem: Memory<V>, input: seq<Token>)
    requires Chooses(lib, input, 7)
    ensures var x := Resolve(lib, mem, SinglePrompt, true, input[1..]);
      var r := HandleMath(lib, mem, input);
      && r.rest == x.rest
      && (r.value.Some? <==> x.value.Some? && !lib.isNonPositive(x.value.value))
  {
    MathDispatch(lib, mem, input, 7);
  }

  /** The factorial choice reads one integer token, without symbolic operands, and
      has a value exactly when that integer is in 0..20; the value is then n!. */
  lemma FactorialChoice<V>(lib: Lib<V>, mem: Memory<V>, input: seq<Token>)
    requires Chooses(lib, input, 10) && |input| >= 2
    ensures var n := lib.parseInt(input[1]);
      var r := HandleMath(lib, mem, input);
      && r.rest == input[2..]
      && (r.value.Some? <==> n.Some? && 0 <= n.value <= FactorialLimit)
      && (r.value.Some? ==> r.value.value == lib.fromInt(Fact(n.value)))
  {
    MathDispatch(lib, mem, input, 10);
  }

  /** The remainder choice reads two integer tokens, without symbolic operands; a
      first token that is not an integer ends it before the second is read, and a
      zero divisor gives no value. */
  lemma RemainderChoice<V>(lib: Lib<V>, mem: Memory<V>, input: seq<Token>)
    requires Chooses(lib, input, 5) && |input| >= 3
    ensures lib.parseLongLong(input[1]).None? ==> HandleMath(lib, mem, input) == Step(None, input[2..])
    ensures lib.parseLongLong(input[1]).Some? && lib.parseLongLong(input[2]).None? ==>
      HandleMath(lib, mem, input) == Step(None, input[3..])
    ensures var a := lib.parseLongLong(input[1]);
      var b := lib.parseLongLong(input[2]);
      a.Some? && b.Some? && !RemainderOverflows(a.value, b.value) ==>
        var r := HandleMath(lib, mem, input);
        && r.rest == input[3..]
        && (r.value.None? <==> b.value == 0)
        && (r.value.Some? ==> r.value.value == lib.fromInt(RemainderOp(a.value, b.value)))
  {
    MathDispatch(lib, mem, input, 5);
  }

  /** The tangent has no value where the cosine vanishes; the cotangent is 0 there,
      unless the sine vanishes too. */
  lemma TangentAsymptotes<V>(lib: Lib<V>, mem: Memory<V>, input: seq<Token>, choice: int)
    requires choice in {3, 4} && Chooses(lib, input, choice)
    ensures var angle := Resolve(lib, mem, AnglePrompt, true, input[1..]);
      angle.value.Some? && lib.cosNearZero(angle.value.value) ==>
        HandleTrig(lib, mem, input)
          == Step(if choice == 3 || lib.sinNearZero(angle.value.value) then None else Some(lib.zero), angle.rest)
  {
    TrigDispatch(lib, mem, input, choice);
  }

  /** Away from the asymptotes of the tangent, the cotangent has no value where the
      tangent vanishes, and is otherwise its reciprocal. */
  lemma CotangentOfTangent<V>(lib: Lib<V>, mem: Memory<V>, input: seq<Token>)
    requires Chooses(lib, input, 4)
    ensures var angle := Resolve(lib, mem, AnglePrompt, true, input[1..]);
      angle.value.Some? && !lib.cosNearZero(angle.value.value) && lib.tanDeg(angle.value.value).Some? ==>
        var t := lib.tanDeg(angle.value.value).value;
        HandleTrig(lib, mem, input)
          == Step(if lib.nearZero(t) then None else Some(lib.reciprocal(t)), angle.rest)
  {
    TrigDispatch(lib, mem, input, 4);
  }

  /** The binary-to-decimal choice reads one string token, without symbolic operands,
      and has a value exactly when the (buffer-sized) token is all binary digits. */
  lemma BinaryChoice<V>(lib: Lib<V>, mem: Memory<V>, input: seq<Token>)
    requires Chooses(lib, input, 2) && |input| >= 2
    ensures var text := FitBuffer(input[1]);
      var r := HandleConversion(lib, mem, input);
      && r.rest == input[2..]
      && (r.value.Some? <==> AllBinary(text))
      && (r.value.Some? ==> r.value.value == lib.fromInt(BinValue(text)))
  {
    ConversionDispatch(lib, mem, input, 2);
  }

  /** The hexadecimal-to-decimal choice has a value exactly when the text converts to
      something other than -1. */
  lemma HexadecimalChoice<V>(lib: Lib<V>, mem: Memory<V>, input: seq<Token>)
    requires Chooses(lib, input, 4) && |input| >= 2
    ensures var h := lib.parseHex(FitBuffer(input[1]));
      var r := HandleConversion(lib, mem, input);
      && r.rest == input[2..]
      && (r.value.Some? <==> h.Some? && h.value != -1)
      && (r.value.Some? ==> r.value.value == lib.fromInt(h.value))
  {
    ConversionDispatch(lib, mem, input, 4);
  }

  /** Hex-to-binary and binary-to-hex only print, so they never give a value. */
  lemma PrintOnlyConversionsGiveNoValue<V>(lib: Lib<V>, mem: Memory<V>, input: seq<Token>, choice: int)
    requires choice in {5, 6} && Chooses(lib, input, choice)
    ensures HandleConversion(lib, mem, input) == Step(None, Tail(input[1..]))
  {
    ConversionDispatch(lib, mem, input, choice);
  }

  /** Decimal-to-binary and decimal-to-hexadecimal give back their operand truncated
      to an integer. */
  lemma DecimalConversionsTruncate<V>(lib: Lib<V>, mem: Memory<V>, input: seq<Token>, choice: int)
    requires choice in {1, 3} && Chooses(lib, input, choice)
    ensures var d := Resolve(lib, mem, DecimalPrompt, true, input[1..]);
      var r := HandleConversion(lib, mem, input);
      && r.rest == d.rest
      && (r.value.Some? <==> d.value.Some?)
      && (r.value.Some? ==> r.value.value == lib.truncate(d.value.value))
  {
    ConversionDispatch(lib, mem, input, choice);
  }

  /** A nested trigonometry operation computing sin(90) supplies its value as the
      operand. */
  lemma NestedSineScenario<V>(lib: Lib<V>, mem: Memory<V>, prompt: string, rest: seq<Token>, x: V, y: V)
    requires lib.parseInt("1") == Some(1)
    requires lib.parseDouble("90") == Some(x) && lib.sinDeg(x) == Some(y)
    ensures Resolve(lib, mem, prompt, true, ["2", "1", "90"] + rest) == Step(Some(y), rest)
  {
    var input := ["2", "1", "90"] + rest;
    assert input[1..] == ["1", "90"] + rest;
    assert input[1..][1..] == ["90"] + rest;
    assert (["90"] + rest)[1..] == rest;
    assert FitBuffer("90") == "90";
    assert Resolve(lib, mem, AnglePrompt, true, ["90"] + rest) == Step(Some(x), rest);
    assert HandleTrig(lib, mem, ["1", "90"] + rest) == Step(Some(y), rest);
  }

  /** Backing out of a nested operation does not fail the operand: the request is
      made again and here answered with "R". */
  lemma CancelledNestedScenario<V>(lib: Lib<V>, mem: Memory<V>, prompt: string, rest: seq<Token>)
    requires lib.parseInt("6") == Some(6)
    ensures Resolve(lib, mem, prompt, true, ["2", "6", "R"] + rest) == Step(Some(mem.last), rest)
  {
    var input := ["2", "6", "R"] + rest;
    assert input[1..] == ["6", "R"] + rest;
    assert input[1..][1..] == ["R"] + rest;
    assert (["R"] + rest)[1..] == rest;
  }

  /** From (0, 0), results 5 and 12 leave R = 12 and P = 5; a failed operation in
      between changes nothing. */
  lemma MemoryScenario()
    ensures Replay(Memory(0, 0), [Some(5)]) == Memory(5, 0)
    ensures Replay(Memory(0, 0), [Some(5), None, Some(12)]) == Memory(12, 5)
  {
    assert [Some(5), None, Some(12)][..2] == [Some(5), None];
    assert [Some(5), None][..1] == [Some(5)];
    assert [Some(5)][..0] == [];
  }
}
