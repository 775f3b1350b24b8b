/** The binary conversions of the conversion menu: `bin_to_dec`, which validates and
    evaluates a digit string, and `dec_to_bin`, modelled as the text it prints. */
module BaseConversion {
  import opened Machine

  predicate IsBinaryDigit(c: char) {
    c == '0' || c == '1'
  }

  predicate AllBinary(s: string) {
    forall i | 0 <= i < |s| :: IsBinaryDigit(s[i])
  }

  function DigitValue(c: char): nat {
    if c == '1' then 1 else 0
  }

  /** Value of a binary numeral: the sum of 2^k over the '1' digits standing k places
      from the right end. */
  function BinValue(s: string): nat {
    if |s| == 0 then 0 else DigitValue(s[0]) * Pow2(|s| - 1) + BinValue(s[1..])
  }

  lemma {:induction false} BinValueBound(s: string)
    ensures BinValue(s) < Pow2(|s|)
    decreases |s|
  {
    if |s| > 0 {
      BinValueBound(s[1..]);
    }
  }

  /** Appending a digit on the right doubles the value of what stands before it. */
  lemma {:induction false} BinValueAppend(t: string, c: char)
    ensures BinValue(t + [c]) == 2 * BinValue(t) + DigitValue(c)
    decreases |t|
  {
    if |t| == 0 {
      assert BinValue([c]) == DigitValue(c) * Pow2(0) + BinValue([]);
    } else {
      assert (t + [c])[1..] == t[1..] + [c];
      BinValueAppend(t[1..], c);
    }
  }

  /** The loop of `bin_to_dec`, scanning from the right end: positions `i` and beyond
      are already scanned, `dec` holds their value and `base` is the weight of
      position `i - 1`. The first character that is neither '0' nor '1' met on the
      way aborts the scan with -1. */
  function BinScan(s: string, i: nat, dec: int, base: int): (r: int)
    requires i <= |s|
    requires base == Pow2(|s| - i) && dec == BinValue(s[i..])
    ensures AllBinary(s[..i]) ==> r == BinValue(s)
    ensures !AllBinary(s[..i]) ==> r == -1
    decreases i
  {
    if i == 0 then
      assert s[i..] == s;
      dec
    else
      assert s[i - 1..][1..] == s[i..];
      assert s[..i] == s[..i - 1] + [s[i - 1]];
      if s[i - 1] == '1' then BinScan(s, i - 1, dec + base, base * 2)
      else if s[i - 1] != '0' then -1
      else BinScan(s, i - 1, dec, base * 2)
  }

  /** `bin_to_dec(s)` for a string of at most 63 characters (the calculator's input
      buffer): -1 exactly when some character is not a binary digit, otherwise the
      numeral's value, which is non-negative and fits a `long long`. */
  function BinToDec(s: string): (r: int)
    requires |s| <= 63
    ensures r == -1 <==> !AllBinary(s)
    ensures AllBinary(s) ==> r == BinValue(s)
    ensures r == -1 || 0 <= r <= Int64Max
  {
    assert s[..|s|] == s;
    BinValueBound(s);
    Pow2Monotone(|s|, 63);
    Pow2Is63();
    BinScan(s, |s|, 0, 1)
  }

  function Reverse(s: string): (r: string)
    ensures |r| == |s|
    ensures forall i | 0 <= i < |s| :: r[i] == s[|s| - 1 - i]
  {
    if |s| == 0 then [] else Reverse(s[1..]) + [s[0]]
  }

  /** The buffer filled by the loop of `dec_to_bin`: binary digits of `m`, least
      significant first, at most `room` of them (the loop stops at 64). */
  function LowBitsFirst(m: nat, room: nat): (buf: string)
    ensures |buf| <= room
  {
    if m == 0 || room == 0 then []
    else [if m % 2 == 1 then '1' else '0'] + LowBitsFirst(m / 2, room - 1)
  }

  /** A value below 2^k needs at most k digits, so a cap of `room` >= k never cuts. */
  lemma {:induction false} LowBitsLength(m: nat, room: nat, k: nat)
    requires m < Pow2(k)
    ensures |LowBitsFirst(m, room)| <= k
    decreases m
  {
    if m != 0 && room != 0 {
      assert k >= 1;
      LowBitsLength(m / 2, room - 1, k - 1);
    }
  }

  /** Printed most significant digit first, the buffer of a positive value below
      2^room is a binary numeral for that value with a leading '1'. */
  lemma {:induction false} LowBitsSpell(m: nat, room: nat)
    requires 0 < m < Pow2(room)
    ensures var d := Reverse(LowBitsFirst(m, room));
      |d| >= 1 && d[0] == '1' && AllBinary(d) && BinValue(d) == m
    decreases m
  {
    var c := if m % 2 == 1 then '1' else '0';
    var rest := LowBitsFirst(m / 2, room - 1);
    assert LowBitsFirst(m, room) == [c] + rest;
    assert ([c] + rest)[1..] == rest;
    var d := Reverse(rest) + [c];
    assert Reverse(LowBitsFirst(m, room)) == d;
    BinValueAppend(Reverse(rest), c);
    if m / 2 == 0 {
      assert rest == [];
    } else {
      LowBitsSpell(m / 2, room - 1);
    }
  }

  /** `dec_to_bin(n)`: the text printed after "Binary: ". */
  function DecToBin(n: int64): (s: string)
    requires n != Int64Min
    ensures n == 0 ==> s == "0"
    ensures n > 0 ==> 1 <= |s| <= 63 && s[0] == '1' && AllBinary(s) && BinValue(s) == n
    ensures n < 0 ==> 2 <= |s| <= 64 && s[0] == '-' && s[1] == '1'
                      && AllBinary(s[1..]) && BinValue(s[1..]) == -n
  {
    if n == 0 then "0"
    else
      Pow2Is63();
      Pow2Monotone(63, 64);
      LowBitsLength(Abs(n), 64, 63);
      LowBitsSpell(Abs(n), 64);
      var digits := Reverse(LowBitsFirst(Abs(n), 64));
      if n < 0 then
        assert ("-" + digits)[1..] == digits;
        "-" + digits
      else digits
  }

  /** Reading back what `dec_to_bin` prints: a non-negative value survives the round
      trip; a negative one does not, because the '-' sign is not a binary digit. */
  lemma DecToBinRoundTrip(n: int64)
    requires n != Int64Min
    ensures n >= 0 ==> BinToDec(DecToBin(n)) == n
    ensures n < 0 ==> !AllBinary(DecToBin(n))
    ensures n < 0 && |DecToBin(n)| <= 63 ==> BinToDec(DecToBin(n)) == -1
  {
    var s := DecToBin(n);
    if n < 0 {
      assert !IsBinaryDigit(s[0]);
    }
  }
}
