/**
 * The GeoHex code codec: a cell's integer coordinates `(level, hexX, hexY)`
 * to and from its code string.
 *
 * Encoding writes each axis in balanced ternary over `level + 3` steps with
 * bases 3^(level+2) … 3^0, packs the two axis digits of a step into one
 * decimal digit `3 * xDigit + yDigit` in 0..8, and turns the first three of
 * those digits (a decimal number of at most 888) into two characters of
 * `HexKey`. Decoding reads the digits back and sums `±3^k` per axis.
 */
module Codec {
  import opened Results

  /** The 52-symbol alphabet of a code's two head characters. */
  const HexKey: string := "ABCDEFGHIJKLMNOPQRSTUVWXYZ" + "abcdefghijklmnopqrstuvwxyz"

  /** 3^k as an exact integer. */
  function Pow3(k: nat): (p: nat)
    ensures p >= 1
  {
    if k == 0 then 1 else 3 * Pow3(k - 1)
  }

  /** Every power of three is odd, so `(3^k - 1) / 2` is exact. */
  lemma {:induction false} Pow3Odd(k: nat)
    ensures Pow3(k) % 2 == 1
  {
    if k > 0 {
      Pow3Odd(k - 1);
    }
  }

  /** The largest magnitude `n` balanced-ternary digits can hold: (3^n - 1) / 2. */
  function Half(n: nat): int
  {
    (Pow3(n) - 1) / 2
  }

  /** 3^k is `2 * Half(k) + 1`, and one more digit triples the range and
      adds one. */
  lemma HalfStep(k: nat)
    ensures Pow3(k) == 2 * Half(k) + 1
    ensures Half(k + 1) == 3 * Half(k) + 1
  {
    Pow3Odd(k);
    assert Pow3(k + 1) == 3 * Pow3(k);
  }

  /** `v` is representable with `n` balanced-ternary digits. */
  predicate InRange(v: int, n: nat)
  {
    -Half(n) <= v <= Half(n)
  }

  // ---------------------------------------------------------------- digits

  predicate IsDigit(c: char)
  {
    '0' <= c <= '9'
  }

  predicate AllDigits(s: string)
  {
    forall i :: 0 <= i < |s| ==> IsDigit(s[i])
  }

  /** `int(c)` for one decimal character. */
  function DigitValue(c: char): (v: nat)
    requires IsDigit(c)
    ensures v <= 9
  {
    c as int - '0' as int
  }

  /** `str(d)` for one decimal digit. */
  function DigitChar(d: nat): (c: char)
    requires d <= 9
    ensures IsDigit(c) && DigitValue(c) == d
  {
    ('0' as int + d) as char
  }

  /** `int(s)` for a string of decimal digits. */
  function DecimalValue(s: string): nat
    requires AllDigits(s)
  {
    if s == [] then 0 else 10 * DecimalValue(s[..|s| - 1]) + DigitValue(s[|s| - 1])
  }

  /** `"{0:03}".format(n)`: the decimal digits of `n`, zero-padded to three. */
  function ZeroPad3(n: nat): (s: string)
    requires n < 10000
    ensures AllDigits(s) && |s| == (if n < 1000 then 3 else 4)
  {
    var tens := n / 10;
    var hundreds := tens / 10;
    if n < 1000 then [DigitChar(hundreds), DigitChar(tens % 10), DigitChar(n % 10)]
    else [DigitChar(hundreds / 10), DigitChar(hundreds % 10), DigitChar(tens % 10), DigitChar(n % 10)]
  }

  /** Zero-padding keeps the value: `int("{0:03}".format(n)) == n`. */
  lemma ZeroPad3Value(n: nat)
    requires n < 10000
    ensures DecimalValue(ZeroPad3(n)) == n
  {
    var s := ZeroPad3(n);
    DecimalValue3(s[..3]);
    if n >= 1000 {
      assert s[..3] == s[..|s| - 1];
    } else {
      assert s[..3] == s;
    }
  }

  /** `str(int(c))` gives back the digit character `c`. */
  lemma DigitCharValue(c: char)
    requires IsDigit(c)
    ensures DigitChar(DigitValue(c)) == c
  {
  }

  /** Zero-padding the value of three decimal characters gives them back. */
  lemma ZeroPadDecimal(t: string)
    requires |t| == 3 && AllDigits(t)
    ensures DecimalValue(t) < 1000 && ZeroPad3(DecimalValue(t)) == t
  {
    DecimalValue3(t);
    var d0, d1, d2 := DigitValue(t[0]), DigitValue(t[1]), DigitValue(t[2]);
    var n := 100 * d0 + 10 * d1 + d2;
    assert n / 10 == 10 * d0 + d1 && n % 10 == d2;
    assert (n / 10) / 10 == d0 && (n / 10) % 10 == d1;
    DigitCharValue(t[0]);
    DigitCharValue(t[1]);
    DigitCharValue(t[2]);
  }

  /** `int()` of three decimal characters. */
  lemma DecimalValue3(s: string)
    requires |s| == 3 && AllDigits(s)
    ensures DecimalValue(s) == 100 * DigitValue(s[0]) + 10 * DigitValue(s[1]) + DigitValue(s[2])
  {
    var s2 := s[..2];
    var s1 := s2[..1];
    assert s1[..0] == [];
    assert DecimalValue(s1) == DigitValue(s[0]);
    assert DecimalValue(s2) == 10 * DigitValue(s[0]) + DigitValue(s[1]);
  }

  // ------------------------------------------------------------- alphabet

  /** The letter at index `i` of the alphabet. */
  lemma HexKeyAt(i: nat)
    requires i < |HexKey|
    ensures HexKey[i] as int == if i < 26 then 'A' as int + i else 'a' as int + (i - 26)
  {
    if i < 13 {
      UpperAt(i);
    } else if i < 26 {
      UpperAtHigh(i);
    } else if i < 39 {
      LowerAt(i);
    } else {
      LowerAtHigh(i);
    }
  }

  lemma UpperAt(i: nat)
    requires i < 13
    ensures HexKey[i] as int == 'A' as int + i
  {
  }

  lemma UpperAtHigh(i: nat)
    requires 13 <= i < 26
    ensures HexKey[i] as int == 'A' as int + i
  {
  }

  lemma LowerAt(i: nat)
    requires 26 <= i < 39
    ensures HexKey[i] as int == 'a' as int + (i - 26)
  {
  }

  lemma LowerAtHigh(i: nat)
    requires 39 <= i < 52
    ensures HexKey[i] as int == 'a' as int + (i - 26)
  {
  }

  /** `HEX_KEY.index(c)`, with `None` where the original raises. */
  function KeyIndex(c: char): (r: Option<nat>)
    ensures r.Some? ==> r.value < |HexKey|
  {
    if 'A' <= c <= 'Z' then Some(c as int - 'A' as int)
    else if 'a' <= c <= 'z' then Some(26 + (c as int - 'a' as int))
    else None
  }

  /** What `KeyIndex` finds is the character at that index of the alphabet. */
  lemma KeyIndexSound(c: char)
    ensures KeyIndex(c).Some? ==> HexKey[KeyIndex(c).value] == c
  {
    if KeyIndex(c).Some? {
      HexKeyAt(KeyIndex(c).value);
    }
  }

  /** `KeyIndex` finds every character of the alphabet, at its own index. */
  lemma KeyIndexComplete(c: char)
    ensures forall i :: 0 <= i < |HexKey| && HexKey[i] == c ==> KeyIndex(c) == Some(i)
  {
    forall i | 0 <= i < |HexKey| && HexKey[i] == c
      ensures KeyIndex(c) == Some(i)
    {
      HexKeyAt(i);
    }
  }

  // ------------------------------------------------------------- encoding

  /** One axis of one encoding step with base `base`: digit 0 (the value is
      at most -ceil(base/2); it is carried up by `base`), 2 (at least
      ceil(base/2); carried down) or 1 (no carry). */
  function AxisDigit(v: int, base: nat): (d: nat)
    ensures d <= 2
  {
    var boundary := (base + 1) / 2;
    if v <= -boundary then 0 else if v >= boundary then 2 else 1
  }

  /** What remains of `v` after the carry of its step digit. */
  function AxisRest(v: int, base: nat): int
  {
    match AxisDigit(v, base)
    case 0 => v + base
    case 2 => v - base
    case _ => v
  }

  /** A step digit: a packed pair of axis digits, `3 * xDigit + yDigit`. */
  predicate IsStepChar(c: char)
  {
    '0' <= c <= '8'
  }

  predicate IsStepString(s: string)
  {
    forall i :: 0 <= i < |s| ==> IsStepChar(s[i])
  }

  /** The digit character of one encoding step of `(x, y)` with base `base`. */
  function StepChar(x: int, y: int, base: nat): (c: char)
    ensures IsStepChar(c)
  {
    DigitChar(3 * AxisDigit(x, base) + AxisDigit(y, base))
  }

  /** The `n` step digits of `(x, y)`, bases 3^(n-1) down to 3^0. */
  function StepCodes(x: int, y: int, n: nat): (s: string)
    ensures |s| == n && IsStepString(s)
    decreases n
  {
    if n == 0 then []
    else
      var base := Pow3(n - 1);
      [StepChar(x, y, base)] + StepCodes(AxisRest(x, base), AxisRest(y, base), n - 1)
  }

  /** `codes` followed by the digits the encoder appends in its last `m`
      steps, starting from the residues `(x, y)`. */
  function AppendSteps(codes: string, x: int, y: int, m: nat): (r: string)
    ensures r == codes + StepCodes(x, y, m)
    decreases m
  {
    if m == 0 then codes
    else
      var base := Pow3(m - 1);
      var c := StepChar(x, y, base);
      assert codes + StepCodes(x, y, m) == (codes + [c]) + StepCodes(AxisRest(x, base), AxisRest(y, base), m - 1);
      AppendSteps(codes + [c], AxisRest(x, base), AxisRest(y, base), m - 1)
  }

  /** The code spelled by a string of step digits: the first three digits,
      read as a decimal number (at most 888), become two `HexKey`
      characters, quotient and remainder by 30; the rest follow unchanged. */
  function CodeOf(codes: string): (code: string)
    requires |codes| >= 3 && IsStepString(codes)
    ensures |code| == |codes| - 1
    ensures KeyIndex(code[0]).Some? && KeyIndex(code[0]).value < 30
    ensures KeyIndex(code[1]).Some? && KeyIndex(code[1]).value < 30
    ensures DecimalValue(codes[..3]) <= 888
    ensures KeyIndex(code[0]).value * 30 + KeyIndex(code[1]).value == DecimalValue(codes[..3])
    ensures code[2..] == codes[3..]
  {
    DecimalValue3(codes[..3]);
    assert IsStepChar(codes[0]) && IsStepChar(codes[1]) && IsStepChar(codes[2]);
    var head := DecimalValue(codes[..3]);
    var code := [HexKey[head / 30], HexKey[head % 30]] + codes[3..];
    KeyIndexComplete(code[0]);
    KeyIndexComplete(code[1]);
    code
  }

  /** The code of the cell `(hexX, hexY)` at `level`. */
  function Encoded(level: nat, hexX: int, hexY: int): (code: string)
    ensures |code| == level + 2
  {
    CodeOf(StepCodes(hexX, hexY, level + 3))
  }

  /** The encoder as the original runs it: a loop over `i` in `-2..level`
      that updates the two residues and appends one digit per step. */
  method Encode(level: nat, hexX: int, hexY: int) returns (code: string)
    ensures code == Encoded(level, hexX, hexY)
  {
    var codes: string := [];
    var x, y := hexX, hexY;
    var i: int := -2;
    while i < level + 1
      invariant -2 <= i <= level + 1
      invariant AppendSteps(codes, x, y, level + 1 - i) == AppendSteps([], hexX, hexY, level + 3)
    {
      var base := Pow3(level - i);
      ghost var x0, y0 := x, y;
      assert Pow3(level + 1 - i - 1) == base;
      var boundary := (base + 1) / 2;
      var step := 0;
      if x <= -boundary {
        x := x + base;
      } else if x >= boundary {
        step := step + 6;
        x := x - base;
      } else {
        step := step + 3;
      }
      if y <= -boundary {
        y := y + base;
      } else if y >= boundary {
        step := step + 2;
        y := y - base;
      } else {
        step := step + 1;
      }
      assert DigitChar(step) == StepChar(x0, y0, base) && x == AxisRest(x0, base) && y == AxisRest(y0, base);
      codes := codes + [DigitChar(step)];
      i := i + 1;
    }
    assert codes == StepCodes(hexX, hexY, level + 3);
    var head := DecimalValue(codes[..3]);
    DecimalValue3(codes[..3]);
    var quotient, remainder := head / 30, head % 30;
    code := [HexKey[quotient], HexKey[remainder]] + codes[3..];
  }

  // ------------------------------------------------------------- decoding

  datatype DecodeError =
    | CodeTooShort   // `code[0]` or `code[1]` raises IndexError
    | HeadNotInKey   // `HEX_KEY.index` raises ValueError
    | BodyNotDigit   // `int(c)` raises ValueError

  datatype Axis = XAxis | YAxis

  /** The axis digit the decoder reads from a decimal digit `v`: `v // 3`
      for x and `v % 3` for y (a body digit '9' yields x-digit 3). */
  function AxisOf(v: nat, a: Axis): nat
  {
    if a == XAxis then v / 3 else v % 3
  }

  /** What one axis digit adds to the decoder's sum: digit 0 subtracts the
      base, 2 adds it, anything else adds nothing. */
  function AxisTerm(d: nat, base: nat): int
  {
    if d == 0 then -(base as int) else if d == 2 then base else 0
  }

  /** The decoder's running sum along axis `a` over the digits `s`: digit
      `j` weighs 3^(top - j). */
  function AxisSum(s: string, top: nat, a: Axis): int
    requires AllDigits(s) && |s| <= top + 1
  {
    if s == [] then 0
    else AxisSum(s[..|s| - 1], top, a) + AxisTerm(AxisOf(DigitValue(s[|s| - 1]), a), Pow3(top - (|s| - 1)))
  }

  /** Appending one digit adds its term to each axis sum. */
  lemma SumSnoc(s: string, c: char, top: nat, base: nat)
    requires AllDigits(s) && IsDigit(c) && |s| <= top && base == Pow3(top - |s|)
    ensures AllDigits(s + [c])
    ensures AxisSum(s + [c], top, XAxis) == AxisSum(s, top, XAxis) + AxisTerm(DigitValue(c) / 3, base)
    ensures AxisSum(s + [c], top, YAxis) == AxisSum(s, top, YAxis) + AxisTerm(DigitValue(c) % 3, base)
  {
    assert (s + [c])[..|s|] == s;
  }

  /** The balanced-ternary value along axis `a` of a digit string, last
      digit weighing 3^0. */
  function Value(s: string, a: Axis): int
    requires AllDigits(s)
  {
    if s == [] then 0 else AxisSum(s, |s| - 1, a)
  }

  /** Python's `int()` of a float `n / 3`: division truncating toward zero. */
  function TruncDiv3(n: int): int
  {
    if n >= 0 then n / 3 else -((-n) / 3)
  }

  /** The cell a code names. The level is `|code| - 2`. The head value
      `30 * index(code[0]) + index(code[1])` is zero-padded to three decimal
      digits and put in front of the body; digit `i` then weighs
      3^(level + 2 - i). A head value of 1000 or more pads to four digits, so
      its last digit weighs 3^-1 and the float sum is truncated by `int()`;
      the sum is therefore kept in thirds, with weights 3^(level + 3 - i). */
  function Decoded(code: string): Result<(nat, int, int), DecodeError>
  {
    if |code| < 1 then Err(CodeTooShort)
    else if KeyIndex(code[0]).None? then Err(HeadNotInKey)
    else if |code| < 2 then Err(CodeTooShort)
    else if KeyIndex(code[1]).None? then Err(HeadNotInKey)
    else if !AllDigits(code[2..]) then Err(BodyNotDigit)
    else
      Ok(DigitsCell(|code| - 2, ZeroPad3(KeyIndex(code[0]).value * 30 + KeyIndex(code[1]).value) + code[2..]))
  }

  /** The cell that the full digit string (head digits, then body) names at
      `level`: the two sums in thirds, each truncated toward zero. */
  function DigitsCell(level: nat, digits: string): (nat, int, int)
    requires AllDigits(digits) && |digits| <= level + 4
  {
    (level, TruncDiv3(AxisSum(digits, level + 3, XAxis)), TruncDiv3(AxisSum(digits, level + 3, YAxis)))
  }

  /** The decoder's outcome: it fails exactly on a code shorter than two
      characters, a head character outside `HexKey` or a body character
      that is not a decimal digit, each with its own error, checked in the
      order the characters are read; a code it accepts names a cell at level
      `|code| - 2`. */
  lemma DecodedOutcome(code: string)
    ensures Decoded(code).Ok? <==> |code| >= 2 && KeyIndex(code[0]).Some? && KeyIndex(code[1]).Some?
                                   && AllDigits(code[2..])
    ensures Decoded(code).Ok? ==> Decoded(code).value.0 == |code| - 2
    ensures Decoded(code) == Err(CodeTooShort) <==> |code| == 0 || (|code| == 1 && KeyIndex(code[0]).Some?)
    ensures Decoded(code) == Err(HeadNotInKey) <==>
              (|code| >= 1 && KeyIndex(code[0]).None?) || (|code| >= 2 && KeyIndex(code[0]).Some? && KeyIndex(code[1]).None?)
    ensures Decoded(code) == Err(BodyNotDigit) <==>
              |code| >= 2 && KeyIndex(code[0]).Some? && KeyIndex(code[1]).Some? && !AllDigits(code[2..])
  {
  }

  /** The decoder as the original runs it: a loop over the digit string that
      adds or subtracts one base per axis, raising at a non-digit. */
  method Decode(code: string) returns (r: Result<(nat, int, int), DecodeError>)
    ensures r == Decoded(code)
  {
    if |code| < 1 {
      return Err(CodeTooShort);
    }
    var quotient := KeyIndex(code[0]);
    if quotient.None? {
      return Err(HeadNotInKey);
    }
    if |code| < 2 {
      return Err(CodeTooShort);
    }
    var remainder := KeyIndex(code[1]);
    if remainder.None? {
      return Err(HeadNotInKey);
    }
    var level := |code| - 2;
    var headCode := ZeroPad3(quotient.value * 30 + remainder.value);
    var baseCode := headCode + code[2..];
    var sums := SumDigits(baseCode, level + 3);
    AllDigitsConcat(headCode, code[2..]);
    if sums.None? {
      return Err(BodyNotDigit);
    }
    DecodedOk(code, quotient.value, remainder.value);
    r := Ok((level, TruncDiv3(sums.value.0), TruncDiv3(sums.value.1)));
  }

  /** Behind an all-digit prefix, a string is all digits exactly when its
      suffix is. */
  lemma AllDigitsConcat(a: string, b: string)
    requires AllDigits(a)
    ensures AllDigits(a + b) <==> AllDigits(b)
  {
    if AllDigits(a + b) {
      forall k | 0 <= k < |b|
        ensures IsDigit(b[k])
      {
        assert b[k] == (a + b)[|a| + k];
      }
    }
  }

  /** The loop of the decoder: one pass over the digit string `baseCode`
      adding or subtracting one base per axis, `None` at the first
      non-digit. The sums are kept in thirds of a unit (see `Decoded`). */
  method SumDigits(baseCode: string, top: nat) returns (sums: Option<(int, int)>)
    requires |baseCode| <= top + 1
    ensures sums.Some? <==> AllDigits(baseCode)
    ensures sums.Some? ==> sums.value == (AxisSum(baseCode, top, XAxis), AxisSum(baseCode, top, YAxis))
  {
    var x3: int, y3: int := 0, 0;
    ghost var done: string := [];
    var i := 0;
    while i < |baseCode|
      invariant 0 <= i <= |baseCode| && done == baseCode[..i] && |done| == i
      invariant AllDigits(done)
      invariant x3 == AxisSum(done, top, XAxis)
      invariant y3 == AxisSum(done, top, YAxis)
    {
      var c := baseCode[i];
      if !IsDigit(c) {
        return None;
      }
      var x, y := DigitValue(c) / 3, DigitValue(c) % 3;
      var base := Pow3(top - i);
      ghost var x0, y0 := x3, y3;
      if x == 0 {
        x3 := x3 - base;
      } else if x == 2 {
        x3 := x3 + base;
      }
      if y == 0 {
        y3 := y3 - base;
      } else if y == 2 {
        y3 := y3 + base;
      }
      assert x3 == x0 + AxisTerm(x, base) && y3 == y0 + AxisTerm(y, base);
      SumSnoc(done, c, top, base);
      done := done + [c];
      i := i + 1;
    }
    assert done == baseCode;
    sums := Some((x3, y3));
  }

  // ------------------------------------------------------------ properties

  /** Raising the top weight by one triples the decoder's sum. */
  lemma {:induction false} SumShift(s: string, top: nat, a: Axis)
    requires AllDigits(s) && |s| <= top + 1
    ensures AxisSum(s, top + 1, a) == 3 * AxisSum(s, top, a)
  {
    if s != [] {
      SumShift(s[..|s| - 1], top, a);
      assert Pow3(top + 1 - (|s| - 1)) == 3 * Pow3(top - (|s| - 1));
    }
  }

  /** The first digit of a sum weighs 3^top; the others continue one lower. */
  lemma {:induction false} SumCons(c: char, s: string, top: nat, a: Axis)
    requires IsDigit(c) && AllDigits(s) && 1 <= top && |s| <= top
    ensures AllDigits([c] + s)
    ensures AxisSum([c] + s, top, a) == AxisTerm(AxisOf(DigitValue(c), a), Pow3(top)) + AxisSum(s, top - 1, a)
  {
    var t := [c] + s;
    assert AllDigits(t) by {
      forall i | 0 <= i < |t| ensures IsDigit(t[i]) {
        if i > 0 { assert t[i] == s[i - 1]; }
      }
    }
    if s == [] {
      assert t[..0] == [];
    } else {
      var init := s[..|s| - 1];
      assert t[..|t| - 1] == [c] + init;
      SumCons(c, init, top, a);
    }
  }

  /** The value of a digit string, its first digit split off. */
  lemma ValueCons(c: char, s: string, a: Axis)
    requires IsDigit(c) && AllDigits(s)
    ensures AllDigits([c] + s)
    ensures Value([c] + s, a) == AxisTerm(AxisOf(DigitValue(c), a), Pow3(|s|)) + Value(s, a)
  {
    if s == [] {
      var t := [c] + s;
      assert t[..0] == [];
      assert AxisSum(t, 0, a) == AxisTerm(AxisOf(DigitValue(c), a), Pow3(0));
    } else {
      SumCons(c, s, |s|, a);
    }
  }

  /** The value of a digit string, one digit appended: a shift by one place. */
  lemma ValueSnoc(s: string, c: char, a: Axis)
    requires AllDigits(s) && IsDigit(c)
    ensures AllDigits(s + [c])
    ensures Value(s + [c], a) == 3 * Value(s, a) + AxisTerm(AxisOf(DigitValue(c), a), 1)
  {
    SumSnoc(s, c, |s|, 1);
    if s != [] {
      SumShift(s, |s| - 1, a);
    }
  }

  /** Every digit string's value fits in as many balanced-ternary digits. */
  lemma {:induction false} ValueBound(s: string, a: Axis)
    requires AllDigits(s)
    ensures InRange(Value(s, a), |s|)
  {
    if s != [] {
      var rest := s[1..];
      assert s == [s[0]] + rest;
      ValueBound(rest, a);
      ValueCons(s[0], rest, a);
      HalfStep(|rest|);
    }
  }

  /** One encoding step splits `v` into the term of its digit and a
      remainder, which fits one digit fewer when `v` fits `k + 1`. */
  lemma AxisStep(v: int, k: nat)
    ensures v == AxisTerm(AxisDigit(v, Pow3(k)), Pow3(k)) + AxisRest(v, Pow3(k))
    ensures InRange(v, k + 1) ==> InRange(AxisRest(v, Pow3(k)), k)
  {
    HalfStep(k);
    var h := Half(k);
    assert (Pow3(k) + 1) / 2 == h + 1;
  }

  /** The digit and remainder of one encoding step are the only ones:
      a term of digit `d` plus a remainder that fits `k` digits is split
      back into exactly `d` and that remainder. */
  lemma AxisStepUnique(d: nat, r: int, k: nat)
    requires d <= 2 && InRange(r, k)
    ensures AxisDigit(AxisTerm(d, Pow3(k)) + r, Pow3(k)) == d
    ensures AxisRest(AxisTerm(d, Pow3(k)) + r, Pow3(k)) == r
  {
    HalfStep(k);
    assert (Pow3(k) + 1) / 2 == Half(k) + 1;
  }

  /** Decoding the step digits of `(x, y)` gives `(x, y)` back whenever both
      fit the number of steps. */
  lemma {:induction false} StepCodesValue(x: int, y: int, n: nat)
    requires InRange(x, n) && InRange(y, n)
    ensures Value(StepCodes(x, y, n), XAxis) == x && Value(StepCodes(x, y, n), YAxis) == y
    decreases n
  {
    if n > 0 {
      var base := Pow3(n - 1);
      var c, xr, yr := StepChar(x, y, base), AxisRest(x, base), AxisRest(y, base);
      var rest := StepCodes(xr, yr, n - 1);
      assert StepCodes(x, y, n) == [c] + rest;
      var k := n - 1;
      assert k + 1 == n;
      AxisStep(x, k);
      AxisStep(y, k);
      StepCodesValue(xr, yr, k);
      ValueCons(c, rest, XAxis);
      ValueCons(c, rest, YAxis);
      StepCharDigits(x, y, base);
    }
  }

  /** The axis digits packed into a step digit unpack to themselves. */
  lemma StepCharDigits(x: int, y: int, base: nat)
    ensures AxisOf(DigitValue(StepChar(x, y, base)), XAxis) == AxisDigit(x, base)
    ensures AxisOf(DigitValue(StepChar(x, y, base)), YAxis) == AxisDigit(y, base)
  {
    var dx, dy := AxisDigit(x, base), AxisDigit(y, base);
    assert DigitValue(StepChar(x, y, base)) == 3 * dx + dy;
  }

  /** One step read back: the step digit `c` placed before remainders that
      fit `k` digits is the step digit the encoder picks, and the
      remainders are what it leaves. */
  lemma StepOfDigit(c: char, x: int, y: int, xr: int, yr: int, k: nat)
    requires IsStepChar(c) && InRange(xr, k) && InRange(yr, k)
    requires x == AxisTerm(DigitValue(c) / 3, Pow3(k)) + xr
    requires y == AxisTerm(DigitValue(c) % 3, Pow3(k)) + yr
    ensures StepChar(x, y, Pow3(k)) == c && AxisRest(x, Pow3(k)) == xr && AxisRest(y, Pow3(k)) == yr
  {
    var v := DigitValue(c);
    AxisStepUnique(v / 3, xr, k);
    AxisStepUnique(v % 3, yr, k);
    assert 3 * (v / 3) + v % 3 == v;
    DigitCharValue(c);
  }

  /** Every string of step digits is the encoding of its own value. */
  lemma {:induction false} StepCodesOfValue(s: string)
    requires IsStepString(s)
    ensures StepCodes(Value(s, XAxis), Value(s, YAxis), |s|) == s
  {
    if s != [] {
      var c, rest := s[0], s[1..];
      assert s == [c] + rest;
      var xr, yr := Value(rest, XAxis), Value(rest, YAxis);
      ValueCons(c, rest, XAxis);
      ValueCons(c, rest, YAxis);
      ValueBound(rest, XAxis);
      ValueBound(rest, YAxis);
      StepCodesOfValue(rest);
      var x, y, base, v := Value(s, XAxis), Value(s, YAxis), Pow3(|rest|), DigitValue(c);
      assert AxisOf(v, XAxis) == v / 3 && AxisOf(v, YAxis) == v % 3;
      StepOfDigit(c, x, y, xr, yr, |rest|);
      assert StepCodes(x, y, |s|) == [StepChar(x, y, base)] + StepCodes(AxisRest(x, base), AxisRest(y, base), |rest|);
    }
  }

  /** A code whose head characters have indices `q` and `r` and whose body
      is all digits decodes to the cell of `ZeroPad3(30 * q + r)` followed
      by its body. */
  lemma DecodedOk(code: string, q: nat, r: nat)
    requires |code| >= 2 && KeyIndex(code[0]) == Some(q) && KeyIndex(code[1]) == Some(r)
    requires AllDigits(code[2..])
    ensures q < 52 && r < 52 && AllDigits(ZeroPad3(q * 30 + r) + code[2..])
    ensures Decoded(code) == Ok(DigitsCell(|code| - 2, ZeroPad3(q * 30 + r) + code[2..]))
  {
    AllDigitsConcat(ZeroPad3(q * 30 + r), code[2..]);
  }

  /** The decoder rebuilds the digit string a code was spelled from: the
      head value zero-padded to three digits, then the body. */
  lemma CodeOfDigits(s: string)
    requires |s| >= 3 && IsStepString(s)
    ensures var code := CodeOf(s);
            AllDigits(code[2..])
            && ZeroPad3(KeyIndex(code[0]).value * 30 + KeyIndex(code[1]).value) + code[2..] == s
  {
    var code := CodeOf(s);
    var head, body := s[..3], s[3..];
    assert code[2..] == body;
    assert AllDigits(body) by {
      forall i | 0 <= i < |body|
        ensures IsDigit(body[i])
      {
        assert body[i] == s[3 + i];
      }
    }
    ZeroPadDecimal(head);
    assert head + body == s;
  }

  /** With a head of three digits the sums in thirds are exact: the cell is
      the balanced-ternary value of the digits on each axis. */
  lemma DigitsCellValue(s: string)
    requires |s| >= 3 && AllDigits(s)
    ensures DigitsCell(|s| - 3, s) == (|s| - 3, Value(s, XAxis), Value(s, YAxis))
  {
    SumShift(s, |s| - 1, XAxis);
    SumShift(s, |s| - 1, YAxis);
  }

  /** Decoding the code a string of step digits spells gives its level and
      the values of its digits. */
  lemma DecodeCodeOf(s: string)
    requires |s| >= 3 && IsStepString(s)
    ensures Decoded(CodeOf(s)) == Ok((|s| - 3, Value(s, XAxis), Value(s, YAxis)))
  {
    var code := CodeOf(s);
    CodeOfDigits(s);
    DecodedOk(code, KeyIndex(code[0]).value, KeyIndex(code[1]).value);
    DigitsCellValue(s);
  }

  /** Round trip: decoding the code of a cell gives back the cell, for every
      cell whose coordinates fit the level's `level + 3` steps. */
  lemma DecodeEncoded(level: nat, hexX: int, hexY: int)
    requires InRange(hexX, level + 3) && InRange(hexY, level + 3)
    ensures Decoded(Encoded(level, hexX, hexY)) == Ok((level, hexX, hexY))
  {
    DecodeCodeOf(StepCodes(hexX, hexY, level + 3));
    StepCodesValue(hexX, hexY, level + 3);
  }

  /** Round trip the other way: every code spelled by step digits decodes,
      and encoding the result gives the same code back. */
  lemma EncodeDecoded(s: string)
    requires |s| >= 3 && IsStepString(s)
    ensures var r := Decoded(CodeOf(s));
            r.Ok? && Encoded(r.value.0, r.value.1, r.value.2) == CodeOf(s)
  {
    DecodeCodeOf(s);
    StepCodesOfValue(s);
  }

  /** The balanced-ternary values of the leading step digits `53060`, digit
      by digit in Horner's order. */
  lemma HighValueExample(s: string)
    requires s == "53060"
    ensures AllDigits(s) && Value(s, XAxis) == -7 && Value(s, YAxis) == 41
  {
    var t0: string := [];
    var t1 := t0 + ['5'];
    ValueSnoc(t0, '5', XAxis); ValueSnoc(t0, '5', YAxis);
    var t2 := t1 + ['3'];
    ValueSnoc(t1, '3', XAxis); ValueSnoc(t1, '3', YAxis);
    var t3 := t2 + ['0'];
    ValueSnoc(t2, '0', XAxis); ValueSnoc(t2, '0', YAxis);
    var t4 := t3 + ['6'];
    ValueSnoc(t3, '6', XAxis); ValueSnoc(t3, '6', YAxis);
    var t5 := t4 + ['0'];
    ValueSnoc(t4, '0', XAxis); ValueSnoc(t4, '0', YAxis);
    assert t5 == s;
  }

  /** The balanced-ternary values of the step digits `5306063103`. */
  lemma ValueExample(s: string)
    requires s == "5306063103"
    ensures AllDigits(s) && Value(s, XAxis) == -1632 && Value(s, YAxis) == 9851
  {
    var t5 := "53060";
    HighValueExample(t5);
    var t6 := t5 + ['6'];
    ValueSnoc(t5, '6', XAxis); ValueSnoc(t5, '6', YAxis);
    var t7 := t6 + ['3'];
    ValueSnoc(t6, '3', XAxis); ValueSnoc(t6, '3', YAxis);
    var t8 := t7 + ['1'];
    ValueSnoc(t7, '1', XAxis); ValueSnoc(t7, '1', YAxis);
    var t9 := t8 + ['0'];
    ValueSnoc(t8, '0', XAxis); ValueSnoc(t8, '0', YAxis);
    var t10 := t9 + ['3'];
    ValueSnoc(t9, '3', XAxis); ValueSnoc(t9, '3', YAxis);
    assert t10 == s;
  }

  /** The head digits 530 become the two characters `R` (17) and `U` (20). */
  lemma CodeOfExample(s: string)
    requires s == "5306063103"
    ensures CodeOf(s) == "RU6063103"
  {
    DecimalValue3(s[..3]);
    assert DecimalValue(s[..3]) == 530;
    assert HexKey[17] == 'R' && HexKey[20] == 'U';
    assert CodeOf(s) == [HexKey[17], HexKey[20]] + s[3..];
  }

  /** A worked example: the level-7 cell (-1632, 9851) and its code. */
  lemma EncodeExample()
    ensures Encoded(7, -1632, 9851) == "RU6063103"
    ensures Decoded("RU6063103") == Ok((7, -1632, 9851))
  {
    var s := "5306063103";
    ValueExample(s);
    CodeOfExample(s);
    DecodeCodeOf(s);
    EncodeDecoded(s);
  }


  /** Decoding sees the two head characters only through the head value
      `30 * index(code[0]) + index(code[1])`: codes with the same head value
      and the same body decode alike. */
  lemma DecodedByHead(c1: string, c2: string)
    requires |c1| == |c2| >= 2 && c1[2..] == c2[2..]
    requires KeyIndex(c1[0]).Some? && KeyIndex(c1[1]).Some? && KeyIndex(c2[0]).Some? && KeyIndex(c2[1]).Some?
    requires KeyIndex(c1[0]).value * 30 + KeyIndex(c1[1]).value == KeyIndex(c2[0]).value * 30 + KeyIndex(c2[1]).value
    ensures Decoded(c1) == Decoded(c2)
  {
    var q1, r1 := KeyIndex(c1[0]).value, KeyIndex(c1[1]).value;
    var q2, r2 := KeyIndex(c2[0]).value, KeyIndex(c2[1]).value;
    if AllDigits(c1[2..]) {
      assert ZeroPad3(q1 * 30 + r1) + c1[2..] == ZeroPad3(q2 * 30 + r2) + c2[2..];
      DecodedOk(c1, q1, r1);
      DecodedOk(c2, q2, r2);
    } else {
      assert Decoded(c1) == Err(BodyNotDigit) && Decoded(c2) == Err(BodyNotDigit);
    }
  }

  /** Codes are not canonical: `Ae` and `BA` both carry the head value
      30, so they name the same cell. */
  lemma AliasExample()
    ensures Decoded("Ae").Ok? && Decoded("Ae") == Decoded("BA")
  {
    assert KeyIndex('A') == Some(0) && KeyIndex('e') == Some(30) && KeyIndex('B') == Some(1);
    assert "Ae"[2..] == "BA"[2..] == "";
    DecodedByHead("Ae", "BA");
  }

  /** A head value of 1000 or more (here `zz`, 51 * 30 + 51 = 1581) pads to
      four digits; the last one weighs a third, and the sum is truncated
      toward zero. */
  lemma LongHeadExample()
    ensures Decoded("zz") == Ok((0, -8, 4))
  {
    LongHeadSums("1581");
    assert KeyIndex('z') == Some(51);
    assert ZeroPad3(1581) + "zz"[2..] == "1581";
  }

  /** The padded digits `1581` of the head `zz`: the x terms -27, 0, +3, -1
      sum to -25 and the y terms 0, +9, +3, 0 to 12; divided by three and
      truncated they give (-8, 4). */
  lemma LongHeadSums(s: string)
    requires s == "1581"
    ensures AllDigits(s) && DigitsCell(0, s) == (0, -8, 4)
  {
    assert Pow3(3) == 27;
    var s1 := [] + ['1'];
    var s2 := s1 + ['5'];
    var s3 := s2 + ['8'];
    SumSnoc([], '1', 3, 27);
    SumSnoc(s1, '5', 3, 9);
    SumSnoc(s2, '8', 3, 3);
    SumSnoc(s3, '1', 3, 1);
    assert s3 + ['1'] == s;
  }

}
