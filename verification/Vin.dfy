/** The check digit of a vehicle identification number (49 CFR 565.15(c)). */
module Vin {

  const WEIGHTS: seq<nat> := [8, 7, 6, 5, 4, 3, 2, 10, 0, 9, 8, 7, 6, 5, 4, 3, 2]

  /** A character's value; what is neither a digit nor a letter of the table counts nothing. */
  function Value(c: char): (v: nat)
    ensures v <= 9
  {
    if '0' <= c <= '9' then c as int - '0' as int
    else if c == 'A' || c == 'J' then 1
    else if c == 'B' || c == 'K' || c == 'S' then 2
    else if c == 'C' || c == 'L' || c == 'T' then 3
    else if c == 'D' || c == 'M' || c == 'U' then 4
    else if c == 'E' || c == 'N' || c == 'V' then 5
    else if c == 'F' || c == 'W' then 6
    else if c == 'G' || c == 'P' || c == 'X' then 7
    else if c == 'H' || c == 'Y' then 8
    else if c == 'R' || c == 'Z' then 9
    else 0
  }

  function Weight(i: nat): nat
    requires i < 17
  {
    WEIGHTS[i]
  }

  /** The weighted sum of the first n characters. */
  function Sum(vin: string, n: nat): nat
    requires n <= |vin| == 17
  {
    if n == 0 then 0 else Sum(vin, n - 1) + Value(vin[n - 1]) * Weight(n - 1)
  }

  function DigitOf(r: nat): char
    requires r < 11
  {
    if r == 10 then 'X' else '0' + r as char
  }

  function CheckDigit(vin: string): char
    requires |vin| == 17
  {
    DigitOf(Sum(vin, 17) % 11)
  }

  lemma DigitsDistinct(r: nat, r': nat)
    requires r < 11 && r' < 11 && r != r'
    ensures DigitOf(r) != DigitOf(r')
  {}

  /** A change at one place moves the sum by the change of value times the weight there. */
  lemma {:induction false} SumAfterChange(vin: string, i: nat, c: char, n: nat)
    requires |vin| == 17 && i < 17 && n <= 17
    ensures Sum(vin[i := c], n) as int
         == Sum(vin, n) + (if i < n then (Value(c) - Value(vin[i])) * Weight(i) else 0)
    decreases n
  {
    hide Value, Weight;
    if n > 0 {
      SumAfterChange(vin, i, c, n - 1);
      if i == n - 1 {
        assert Value(c) * Weight(i) == Value(vin[i]) * Weight(i) + (Value(c) - Value(vin[i])) * Weight(i);
      }
    }
  }

  /** Writing the computed digit at position 9 gives a number that passes: that position weighs nothing. */
  lemma WrittenDigitPasses(vin: string)
    requires |vin| == 17
    ensures var v := vin[8 := CheckDigit(vin)]; CheckDigit(v) == v[8]
  {
    hide Sum;
    SumAfterChange(vin, 8, CheckDigit(vin), 17);
    assert Weight(8) == 0;
  }

  /** A product of two numbers not divisible by eleven is not divisible by eleven, for the sizes that occur. */
  lemma NotDivisible(d: int, w: int)
    requires -9 <= d <= 9 && d != 0 && -10 <= w <= 10 && w != 0
    ensures (d * w) % 11 != 0
  {
    if d < 0 {
      NegativeFactor(-d, w);
    } else {
      PositiveFactor(d, w);
    }
  }

  lemma PositiveFactor(d: int, w: int)
    requires 1 <= d <= 9 && -10 <= w <= 10 && w != 0
    ensures (d * w) % 11 != 0
  {
    if d == 1 {} else if d == 2 {} else if d == 3 {} else if d == 4 {} else if d == 5 {} else if d == 6 {}
    else if d == 7 {} else if d == 8 {} else {}
  }

  lemma NegativeFactor(d: int, w: int)
    requires 1 <= d <= 9 && -10 <= w <= 10 && w != 0
    ensures (-d * w) % 11 != 0
  {
    PositiveFactor(d, -w);
    assert -d * w == d * -w;
  }

  lemma SameRemainder(a: nat, b: nat)
    requires a % 11 == b % 11
    ensures (a - b) % 11 == 0
  {
    assert a - b == 11 * (a / 11 - b / 11);
  }

  /** A sum that moves by no multiple of eleven has another digit. */
  lemma DigitMoves(a: nat, b: nat, d: int, w: int)
    requires a == b + d * w && -9 <= d <= 9 && d != 0 && -10 <= w <= 10 && w != 0
    ensures DigitOf(a % 11) != DigitOf(b % 11)
  {
    NotDivisible(d, w);
    if a % 11 == b % 11 {
      SameRemainder(a, b);
    } else {
      DigitsDistinct(a % 11, b % 11);
    }
  }

  lemma Weights(i: nat)
    requires i < 17
    ensures Weight(i) <= 10 && (i != 8 ==> Weight(i) > 0)
    ensures i < 16 ==> Weight(i) != Weight(i + 1)
  {}

  /** Any change of one character's value outside position 9 changes the digit. */
  lemma SingleChangeMoves(vin: string, i: nat, c: char)
    requires |vin| == 17 && i < 17 && i != 8 && Value(c) != Value(vin[i])
    ensures CheckDigit(vin[i := c]) != CheckDigit(vin)
  {
    hide Value, Sum, Weight, DigitOf;
    SumAfterChange(vin, i, c, 17);
    Weights(i);
    DigitMoves(Sum(vin[i := c], 17), Sum(vin, 17), Value(c) - Value(vin[i]), Weight(i));
  }

  lemma TwoTerms(x: int, v: int, w: int)
    ensures x * v + (-x) * w == x * (v - w)
  {}

  /** Swapping neighbours of different value changes the digit, wherever they stand. */
  lemma SwapMoves(vin: string, i: nat)
    requires |vin| == 17 && i < 16 && Value(vin[i]) != Value(vin[i + 1])
    ensures CheckDigit(vin[i := vin[i + 1]][i + 1 := vin[i]]) != CheckDigit(vin)
  {
    hide Value, Sum, Weight, DigitOf;
    var a, b := vin[i], vin[i + 1];
    var once := vin[i := b];
    SumAfterChange(vin, i, b, 17);
    SumAfterChange(once, i + 1, a, 17);
    Weights(i);
    Weights(i + 1);
    TwoTerms(Value(b) - Value(a), Weight(i), Weight(i + 1));
    DigitMoves(Sum(once[i + 1 := a], 17), Sum(vin, 17), Value(b) - Value(a), Weight(i) - Weight(i + 1));
  }

  /** The number carries its own check digit. */
  predicate Passes(vin: string)
    requires |vin| == 17
  {
    CheckDigit(vin) == vin[8]
  }

  /** A number that passes no longer does after one change of value or one swap of neighbours away from position 9. */
  lemma ErrorsDetected(vin: string, i: nat, c: char)
    requires |vin| == 17 && Passes(vin) && i < 17 && i != 8
    ensures Value(c) != Value(vin[i]) ==> !Passes(vin[i := c])
    ensures i < 16 && i != 7 && Value(vin[i]) != Value(vin[i + 1]) ==> !Passes(vin[i := vin[i + 1]][i + 1 := vin[i]])
  {
    hide Value, CheckDigit;
    if Value(c) != Value(vin[i]) {
      SingleChangeMoves(vin, i, c);
    }
    if i < 16 && Value(vin[i]) != Value(vin[i + 1]) {
      SwapMoves(vin, i);
    }
  }

  // ----- The standard's tables and a known number -----

  /** The table of values, row by row. */
  lemma Values()
    ensures Value('A') == 1 && Value('B') == 2 && Value('C') == 3 && Value('D') == 4 && Value('E') == 5
    ensures Value('F') == 6 && Value('G') == 7 && Value('H') == 8 && Value('J') == 1 && Value('K') == 2
    ensures Value('L') == 3 && Value('M') == 4 && Value('N') == 5 && Value('P') == 7 && Value('R') == 9
    ensures Value('S') == 2 && Value('T') == 3 && Value('U') == 4 && Value('V') == 5 && Value('W') == 6
    ensures Value('X') == 7 && Value('Y') == 8 && Value('Z') == 9
    ensures Value('0') == 0 && Value('1') == 1 && Value('2') == 2 && Value('3') == 3 && Value('4') == 4
    ensures Value('5') == 5 && Value('6') == 6 && Value('7') == 7 && Value('8') == 8 && Value('9') == 9
    ensures Value('I') == 0 && Value('O') == 0 && Value('Q') == 0
  {}

  /** Nothing but digits and capital letters counts. */
  lemma OthersCountNothing(c: char)
    ensures Value(c) > 0 ==> '1' <= c <= '9' || 'A' <= c <= 'Z'
  {}

  /** The table of weights, in one sum. */
  lemma SumIs(vin: string)
    requires |vin| == 17
    ensures Sum(vin, 17) == 8 * Value(vin[0]) + 7 * Value(vin[1]) + 6 * Value(vin[2]) + 5 * Value(vin[3])
         + 4 * Value(vin[4]) + 3 * Value(vin[5]) + 2 * Value(vin[6]) + 10 * Value(vin[7])
         + 9 * Value(vin[9]) + 8 * Value(vin[10]) + 7 * Value(vin[11]) + 6 * Value(vin[12])
         + 5 * Value(vin[13]) + 4 * Value(vin[14]) + 3 * Value(vin[15]) + 2 * Value(vin[16])
  {
    hide Value;
    FirstHalf(vin, 0);
    SecondHalf(vin, 0);
  }

  lemma SumStep(vin: string, n: nat)
    requires |vin| == 17 && n < 17
    ensures Sum(vin, n + 1) == Sum(vin, n) + WEIGHTS[n] * Value(vin[n])
  {
    hide Value;
  }

  lemma SumStart(vin: string)
    requires |vin| == 17
    ensures Sum(vin, 0) == 0
  {}

  lemma FirstHalf(vin: string, zero: nat)
    requires |vin| == 17 && zero == 0
    ensures Sum(vin, zero + 9) == 8 * Value(vin[0]) + 7 * Value(vin[1]) + 6 * Value(vin[2]) + 5 * Value(vin[3])
         + 4 * Value(vin[4]) + 3 * Value(vin[5]) + 2 * Value(vin[6]) + 10 * Value(vin[7])
  {
    hide Value, Sum;
    SumStart(vin);
    SumStep(vin, zero);
    SumStep(vin, zero + 1);
    SumStep(vin, zero + 2);
    SumStep(vin, zero + 3);
    SumStep(vin, zero + 4);
    SumStep(vin, zero + 5);
    SumStep(vin, zero + 6);
    SumStep(vin, zero + 7);
    SumStep(vin, zero + 8);
  }

  lemma SecondHalf(vin: string, zero: nat)
    requires |vin| == 17 && zero == 0
    ensures Sum(vin, zero + 17) == Sum(vin, zero + 9)
         + 9 * Value(vin[9]) + 8 * Value(vin[10]) + 7 * Value(vin[11]) + 6 * Value(vin[12])
         + 5 * Value(vin[13]) + 4 * Value(vin[14]) + 3 * Value(vin[15]) + 2 * Value(vin[16])
  {
    hide Value, Sum;
    SumStep(vin, zero + 9);
    SumStep(vin, zero + 10);
    SumStep(vin, zero + 11);
    SumStep(vin, zero + 12);
    SumStep(vin, zero + 13);
    SumStep(vin, zero + 14);
    SumStep(vin, zero + 15);
    SumStep(vin, zero + 16);
  }

  /** Two well-known numbers that pass, one with the digit X. */
  lemma KnownNumbers()
    ensures CheckDigit("1M8GDM9AXKP042788") == 'X' && CheckDigit("11111111111111111") == '1'
  {
    hide Sum, Value;
    SumIs("1M8GDM9AXKP042788");
    SumIs("11111111111111111");
    Values();
  }
}
