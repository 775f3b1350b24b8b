/** The operand resolver and the three operation handlers (math, trigonometry,
    number conversions). They call each other: an operand can be the result of a
    whole nested operation, to any depth. Every call reads at least one token, so
    the length of the remaining input bounds the recursion. The memory is read,
    never written, here. */
module Calculator {
  import opened Wrappers
  import opened Machine
  import opened Console
  import opened CLibrary
  import opened ResultMemory
  import opened IntegerOps
  import opened BaseConversion

  /** The sub-menus an operand token "1", "2" or "3" opens. */
  datatype Menu = MathMenu | TrigMenu | ConversionMenu

  /** The "Back" entry, which is also the highest choice, of each sub-menu. */
  const MathBack: int := 11
  const TrigBack: int := 6
  const ConversionBack: int := 7

  /** The operand prompts of the handlers. */
  const SinglePrompt := "Enter a single number (x)"
  const FirstPrompt := "Enter the first number (a)"
  const SecondPrompt := "Enter the second number (b)"
  const SideAPrompt := "Enter side a"
  const SideBPrompt := "Enter side b"
  const AnglePrompt := "Enter the angle in degrees"
  const DecimalPrompt := "Enter Decimal number (will be truncated to integer)"

  predicate IsLastResultToken(t: string) {
    t == "R" || t == "r"
  }

  predicate IsPrevResultToken(t: string) {
    t == "P" || t == "p"
  }

  predicate IsNestedToken(t: string) {
    t == "1" || t == "2" || t == "3"
  }

  function NestedMenu(t: string): Menu
    requires IsNestedToken(t)
  {
    if t == "1" then MathMenu else if t == "2" then TrigMenu else ConversionMenu
  }

  /** `get_double_input(prompt, symbolic)`: one operand. With `symbolic` set, "R"/"r"
      and "P"/"p" name the memory slots, and "1"/"2"/"3" run a nested operation whose
      value becomes the operand; when that operation ends with no value the same
      request starts over. Any other token, and every token when `symbolic` is off,
      is parsed as a number, without a second chance. The prompt only shapes what
      is printed. */
  function Resolve<V>(lib: Lib<V>, mem: Memory<V>, prompt: string, symbolic: bool, input: seq<Token>)
    : (r: Step<Option<V>>)
    ensures Consumes(input, r.rest)
    decreases |input|, 0
  {
    if |input| == 0 then Step(None, [])
    else
      var token := FitBuffer(input[0]);
      var rest := input[1..];
      if symbolic && IsLastResultToken(token) then Step(Some(mem.last), rest)
      else if symbolic && IsPrevResultToken(token) then Step(Some(mem.prev), rest)
      else if symbolic && IsNestedToken(token) then
        var nested := Nested(lib, mem, NestedMenu(token), rest);
        if nested.value.Some? then
          SuffixTransitive(nested.rest, rest, input);
          nested
        else
          var again := Resolve(lib, mem, prompt, symbolic, nested.rest);
          SuffixTransitive(again.rest, nested.rest, rest);
          SuffixTransitive(again.rest, rest, input);
          again
      else Step(lib.parseDouble(token), rest)
  }

  /** Runs the handler of one sub-menu. */
  function Nested<V>(lib: Lib<V>, mem: Memory<V>, menu: Menu, input: seq<Token>): (r: Step<Option<V>>)
    ensures Consumes(input, r.rest)
    decreases |input|, 4
  {
    match menu
    case MathMenu => HandleMath(lib, mem, input)
    case TrigMenu => HandleTrig(lib, mem, input)
    case ConversionMenu => HandleConversion(lib, mem, input)
  }

  /** Two operands, the second requested only once the first has a value. */
  function ResolvePair<V>(lib: Lib<V>, mem: Memory<V>, firstPrompt: string, secondPrompt: string,
                          input: seq<Token>): (r: Step<Option<(V, V)>>)
    ensures Suffix(r.rest, input)
    ensures var a := Resolve(lib, mem, firstPrompt, true, input);
      && (a.value.None? ==> r == Step(None, a.rest))
      && (a.value.Some? ==>
            var b := Resolve(lib, mem, secondPrompt, true, a.rest);
            && r.rest == b.rest
            && (r.value.Some? <==> b.value.Some?)
            && (r.value.Some? ==> r.value.value == (a.value.value, b.value.value)))
    decreases |input|, 1
  {
    var a := Resolve(lib, mem, firstPrompt, true, input);
    if a.value.None? then Step(None, a.rest)
    else
      var b := Resolve(lib, mem, secondPrompt, true, a.rest);
      SuffixTransitive(b.rest, a.rest, input);
      match b.value
      case None => Step(None, b.rest)
      case Some(y) => Step(Some((a.value.value, y)), b.rest)
  }

  /** The menu read at the front of `input` is invalid or "Back". */
  predicate Cancelled<V>(lib: Lib<V>, input: seq<Token>, back: int) {
    var choice := ReadMenuChoice(lib.parseInt, input, back).value;
    choice == -1 || choice == back
  }

  /** exp, log and |x| of the math menu (choices 6, 7, 8). */
  function MathUnary<V>(lib: Lib<V>, choice: int, x: V): Option<V> {
    if choice == 6 then Some(lib.exp(x))
    else if choice == 7 then Logarithm(lib, x)
    else Some(lib.fabs(x))
  }

  /** The two-operand floating operations of the math menu (choices 1-4 and 9). */
  function MathBinary<V>(lib: Lib<V>, choice: int, a: V, b: V): Option<V> {
    if choice == 1 then lib.add(a, b)
    else if choice == 2 then lib.subtract(a, b)
    else if choice == 3 then lib.multiply(a, b)
    else if choice == 4 then Divide(lib, a, b)
    else if choice == 9 then lib.power(a, b)
    else None
  }

  /** Math choice 10: `factorial` reports an error as 0, which becomes no value. */
  function FactorialValue<V>(lib: Lib<V>, n: int): Option<V> {
    var f := Factorial(n);
    if f != 0 then Some(lib.fromInt(f)) else None
  }

  /** Math choice 5: a zero divisor gives no value. */
  function RemainderValue<V>(lib: Lib<V>, a: int64, b: int64): Option<V> {
    if b == 0 || RemainderOverflows(a, b) then None
    else Some(lib.fromInt(RemainderOp(a, b)))
  }

  /** `handle_math_operations`: reads the menu choice, then runs the operation. */
  function HandleMath<V>(lib: Lib<V>, mem: Memory<V>, input: seq<Token>): (r: Step<Option<V>>)
    ensures Consumes(input, r.rest)
    ensures Cancelled(lib, input, MathBack) ==> r == Step(None, Tail(input))
    decreases |input|, 3
  {
    var menu := ReadMenuChoice(lib.parseInt, input, MathBack);
    if menu.value == -1 || menu.value == MathBack then Step(None, menu.rest)
    else
      var r := MathOperation(lib, mem, menu.value, menu.rest);
      SuffixTransitive(r.rest, menu.rest, input);
      r
  }

  /** One math operation, after its menu choice: the floating operations take their
      operands from the resolver, factorial and remainder read plain integers. */
  function MathOperation<V>(lib: Lib<V>, mem: Memory<V>, choice: int, input: seq<Token>): (r: Step<Option<V>>)
    ensures Suffix(r.rest, input)
    decreases |input|, 2
  {
    if choice == 6 || choice == 7 || choice == 8 then
      var x := Resolve(lib, mem, SinglePrompt, true, input);
      if x.value.None? then Step(None, x.rest)
      else Step(MathUnary(lib, choice, x.value.value), x.rest)
    else if choice == 10 then
      var n := ReadParsed(lib.parseInt, input);
      if n.value.None? then Step(None, n.rest)
      else Step(FactorialValue(lib, n.value.value), n.rest)
    else if choice == 5 then
      var a := ReadParsed(lib.parseLongLong, input);
      if a.value.None? then Step(None, a.rest)
      else
        var b := ReadParsed(lib.parseLongLong, a.rest);
        SuffixTransitive(b.rest, a.rest, input);
        if b.value.None? then Step(None, b.rest)
        else Step(RemainderValue(lib, a.value.value, b.value.value), b.rest)
    else
      var ab := ResolvePair(lib, mem, FirstPrompt, SecondPrompt, input);
      match ab.value
      case None => Step(None, ab.rest)
      case Some((a, b)) => Step(MathBinary(lib, choice, a, b), ab.rest)
  }

  /** The angle operations of the trigonometry menu (choices 1-4). */
  function TrigAngle<V>(lib: Lib<V>, choice: int, deg: V): Option<V> {
    if choice == 1 then lib.sinDeg(deg)
    else if choice == 2 then lib.cosDeg(deg)
    else if choice == 3 then TangentDeg(lib, deg)
    else if choice == 4 then CotangentDeg(lib, deg)
    else None
  }

  /** `handle_trig_operations`: reads the menu choice, then runs the operation. */
  function HandleTrig<V>(lib: Lib<V>, mem: Memory<V>, input: seq<Token>): (r: Step<Option<V>>)
    ensures Consumes(input, r.rest)
    ensures Cancelled(lib, input, TrigBack) ==> r == Step(None, Tail(input))
    decreases |input|, 3
  {
    var menu := ReadMenuChoice(lib.parseInt, input, TrigBack);
    if menu.value == -1 || menu.value == TrigBack then Step(None, menu.rest)
    else
      var r := TrigOperation(lib, mem, menu.value, menu.rest);
      SuffixTransitive(r.rest, menu.rest, input);
      r
  }

  /** One trigonometric operation, after its menu choice. */
  function TrigOperation<V>(lib: Lib<V>, mem: Memory<V>, choice: int, input: seq<Token>): (r: Step<Option<V>>)
    ensures Suffix(r.rest, input)
    ensures choice == 5 ==>
      var ab := ResolvePair(lib, mem, SideAPrompt, SideBPrompt, input);
      && r.rest == ab.rest
      && (r.value.Some? <==> ab.value.Some?)
    ensures choice != 5 ==>
      var angle := Resolve(lib, mem, AnglePrompt, true, input);
      r.rest == angle.rest && (angle.value.None? ==> r.value.None?)
    decreases |input|, 2
  {
    if choice == 5 then
      var ab := ResolvePair(lib, mem, SideAPrompt, SideBPrompt, input);
      match ab.value
      case None => Step(None, ab.rest)
      case Some((a, b)) => Step(Some(lib.hypot(a, b)), ab.rest)
    else
      var angle := Resolve(lib, mem, AnglePrompt, true, input);
      if angle.value.None? then Step(None, angle.rest)
      else Step(TrigAngle(lib, choice, angle.value.value), angle.rest)
  }

  /** The conversions of the conversion menu that read a digit string (choices 2, 4,
      5, 6). Choices 5 and 6 only print, so they give no value. */
  function ConvertText<V>(lib: Lib<V>, choice: int, text: string): Option<V>
    requires |text| <= BufferChars
  {
    if choice == 2 then
      var dec := BinToDec(text);
      if dec != -1 then Some(lib.fromInt(dec)) else None
    else if choice == 4 then
      var dec := HexToDec(lib, text);
      if dec != -1 then Some(lib.fromInt(dec)) else None
    else None
  }

  /** `handle_conversion_operations`: reads the menu choice, then runs the conversion. */
  function HandleConversion<V>(lib: Lib<V>, mem: Memory<V>, input: seq<Token>): (r: Step<Option<V>>)
    ensures Consumes(input, r.rest)
    ensures Cancelled(lib, input, ConversionBack) ==> r == Step(None, Tail(input))
    decreases |input|, 3
  {
    var menu := ReadMenuChoice(lib.parseInt, input, ConversionBack);
    if menu.value == -1 || menu.value == ConversionBack then Step(None, menu.rest)
    else
      var r := ConversionOperation(lib, mem, menu.value, menu.rest);
      SuffixTransitive(r.rest, menu.rest, input);
      r
  }

  /** One conversion, after its menu choice. Choices 1 and 3 print the operand in
      binary or hexadecimal and give back the operand truncated to an integer; the
      others read a digit string, without symbolic operands. */
  function ConversionOperation<V>(lib: Lib<V>, mem: Memory<V>, choice: int, input: seq<Token>)
    : (r: Step<Option<V>>)
    ensures Suffix(r.rest, input)
    ensures choice == 1 || choice == 3 ==>
      var d := Resolve(lib, mem, DecimalPrompt, true, input);
      r.rest == d.rest && (r.value.Some? <==> d.value.Some?)
    ensures choice != 1 && choice != 3 ==> r.rest == Tail(input)
    ensures choice == 5 || choice == 6 ==> r.value.None?
    decreases |input|, 2
  {
    if choice == 1 || choice == 3 then
      var d := Resolve(lib, mem, DecimalPrompt, true, input);
      if d.value.None? then Step(None, d.rest)
      else Step(Some(lib.truncate(d.value.value)), d.rest)
    else
      var text := ReadToken(input);
      if text.value.None? then Step(None, text.rest)
      else Step(ConvertText(lib, choice, text.value.value), text.rest)
  }
}
