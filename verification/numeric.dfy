/**
 * The numeric utilities of the UART driver: `itoa`, which formats a 16-bit
 * unsigned value in a base, and `atoi`, which reads decimal text back.
 *
 * `Digits` is the reference formatting (most significant digit first),
 * `ValueOf` the positional reading of a digit string, and `Accumulate` the
 * 16-bit wrapping accumulation `atoi` performs. The methods `Itoa` and
 * `Atoi` follow the loops of the C code and are proved against them.
 */
module Numeric {

  type Byte = x: int | 0 <= x < 0x100
  type U16 = x: int | 0 <= x < 0x1_0000

  const NUL: char := 0 as char

  /** Size of the scratch buffer `tmp` in which `itoa` collects digits. */
  const SCRATCH_LEN: nat := 17

  /** A 16-bit unsigned value wraps modulo this. */
  const WORD: nat := 0x1_0000

  // ---------------------------------------------------------------------------
  // Digits and their characters
  // ---------------------------------------------------------------------------

  /** The base `itoa` works in: a base below 2 is taken as 10. */
  function EffectiveBase(base: Byte): (b: nat)
    ensures 2 <= b < 0x100
    ensures b == base || (base < 2 && b == 10)
  {
    if base < 2 then 10 else base
  }

  /** The character `itoa` writes for a digit value: '0'..'9' below ten, 'A' upwards from ten. */
  function DigitChar(r: nat): (c: char)
    requires r < 0x100
    ensures r < 10 ==> IsDecimalDigit(c)
    ensures 10 <= r < 36 ==> 'A' <= c <= 'Z'
  {
    if r < 10 then ('0' as int + r) as char else ('A' as int + r - 10) as char
  }

  /**
   * The digit value of a character: '0'..'9' are 0..9, 'A'..'Z' are 10..35,
   * anything else is not a digit (-1).
   */
  function CharDigit(c: char): (d: int)
    ensures -1 <= d < 36
  {
    if '0' <= c <= '9' then c as int - '0' as int
    else if 'A' <= c <= 'Z' then c as int - 'A' as int + 10
    else -1
  }

  predicate IsDecimalDigit(c: char) {
    '0' <= c <= '9'
  }

  function DigitValue(c: char): (d: nat)
    requires IsDecimalDigit(c)
    ensures d < 10 && d == CharDigit(c)
  {
    c as int - '0' as int
  }

  /** `CharDigit` undoes `DigitChar` for every digit a base up to 36 uses. */
  lemma CharDigitOfDigitChar(r: nat)
    requires r < 36
    ensures CharDigit(DigitChar(r)) == r
    ensures r < 10 <==> IsDecimalDigit(DigitChar(r))
  {
  }

  /**
   * Quotient and remainder of `v` by `b`, by repeated subtraction. The
   * digit functions below use these rather than `/` and `%`, which keeps
   * their proofs within linear arithmetic; `DivIsQuot` shows they agree with
   * the C operators for the unsigned operands `itoa` uses.
   */
  function Quot(v: nat, b: nat): (q: nat)
    requires 2 <= b
    ensures v < b ==> q == 0
    ensures v >= b ==> 1 <= q < v
    decreases v
  {
    if v < b then 0 else 1 + Quot(v - b, b)
  }

  function Rem(v: nat, b: nat): (r: nat)
    requires 2 <= b
    ensures r < b
    ensures v < b ==> r == v
    decreases v
  {
    if v < b then v else Rem(v - b, b)
  }

  /** Quotient and remainder put `v` back together. */
  lemma {:induction false} QuotRem(v: nat, b: nat)
    requires 2 <= b
    ensures Quot(v, b) * b + Rem(v, b) == v
    decreases v
  {
    if v >= b {
      QuotRem(v - b, b);
      assert Quot(v, b) * b == b + Quot(v - b, b) * b;
    }
  }

  lemma MulSign(e: int, b: int)
    ensures b > 0 && e >= 1 ==> e * b >= b
    ensures b > 0 && e <= -1 ==> e * b <= -b
  {
  }

  lemma ShiftDiv(u: nat, b: nat)
    requires 2 <= b
    ensures (u + b) / b == u / b + 1 && (u + b) % b == u % b
  {
    var q, q' := u / b, (u + b) / b;
    var e := q' - q - 1;
    assert e * b == q' * b - q * b - b;
    MulSign(e, b);
  }

  /** `Quot` and `Rem` are the `/` and `%` of the C code on unsigned operands. */
  lemma {:induction false} DivIsQuot(v: nat, b: nat)
    requires 2 <= b
    ensures v / b == Quot(v, b) && v % b == Rem(v, b)
    decreases v
  {
    if v >= b {
      DivIsQuot(v - b, b);
      ShiftDiv(v - b, b);
    }
  }

  /**
   * The digits of `v` in base `b`, most significant first, without leading
   * zeros; zero is the single digit "0".
   */
  function Digits(v: nat, b: nat): (s: seq<char>)
    requires 2 <= b < 0x100
    ensures |s| >= 1
    ensures v == 0 ==> s == "0"
    decreases v
  {
    if v < b then [DigitChar(v)] else Digits(Quot(v, b), b) + [DigitChar(Rem(v, b))]
  }

  /** The same digits least significant first: the order `itoa` fills its scratch buffer in. */
  function DigitsLsdFirst(v: nat, b: nat): (s: seq<char>)
    requires 2 <= b < 0x100
    ensures |s| == |Digits(v, b)|
    decreases v
  {
    if v < b then [DigitChar(v)] else [DigitChar(Rem(v, b))] + DigitsLsdFirst(Quot(v, b), b)
  }

  /** Reading a digit string positionally, left to right, in base `b`. */
  function ValueOf(s: seq<char>, b: nat): int
  {
    if s == [] then 0 else ValueOf(s[..|s| - 1], b) * b + CharDigit(s[|s| - 1])
  }

  function Pow(b: nat, k: nat): nat
  {
    if k == 0 then 1 else b * Pow(b, k - 1)
  }

  // ---------------------------------------------------------------------------
  // Properties of the digit strings
  // ---------------------------------------------------------------------------

  /** The scratch order is exactly the output order reversed. */
  lemma {:induction false} LsdFirstMirrorsDigits(v: nat, b: nat)
    requires 2 <= b < 0x100
    ensures forall k :: 0 <= k < |Digits(v, b)| ==>
      Digits(v, b)[k] == DigitsLsdFirst(v, b)[|Digits(v, b)| - 1 - k]
    decreases v
  {
    if v >= b {
      var q, r := Quot(v, b), Rem(v, b);
      LsdFirstMirrorsDigits(q, b);
      var d, l := Digits(v, b), DigitsLsdFirst(v, b);
      var d', l' := Digits(q, b), DigitsLsdFirst(q, b);
      assert d == d' + [DigitChar(r)] && l == [DigitChar(r)] + l';
      forall k | 0 <= k < |d|
        ensures d[k] == l[|d| - 1 - k]
      {
        if k < |d'| {
          assert d[k] == d'[k];
          assert l[|d| - 1 - k] == l'[|d'| - 1 - k];
        } else {
          assert d[k] == DigitChar(r) == l[0];
        }
      }
    }
  }

  /** Formatting then reading back positionally gives the value, in every base 2..36. */
  lemma {:induction false} DigitsRoundTrip(v: nat, b: nat)
    requires 2 <= b <= 36
    ensures ValueOf(Digits(v, b), b) == v
    decreases v
  {
    var s := Digits(v, b);
    if v < b {
      CharDigitOfDigitChar(v);
      assert s[..0] == [];
    } else {
      var q, r := Quot(v, b), Rem(v, b);
      DigitsRoundTrip(q, b);
      CharDigitOfDigitChar(r);
      assert s[..|s| - 1] == Digits(q, b);
      QuotRem(v, b);
    }
  }

  /** A value below b^k has at most k digits in base b. */
  lemma {:induction false} DigitCountBound(v: nat, b: nat, k: nat)
    requires 2 <= b < 0x100 && 1 <= k
    requires v < Pow(b, k)
    ensures |Digits(v, b)| <= k
    decreases v
  {
    if v >= b {
      assert Pow(b, 1) == b;
      var q := Quot(v, b);
      QuotRem(v, b);
      LessByFactor(q, Pow(b, k - 1), b);
      DigitCountBound(q, b, k - 1);
    }
  }

  lemma LessByFactor(q: nat, p: nat, b: nat)
    requires b > 0 && q * b < p * b
    ensures q < p
  {
    assert q * b - p * b == (q - p) * b;
  }

  lemma {:induction false} PowBaseMonotone(b: nat, k: nat)
    requires 2 <= b
    ensures Pow(2, k) <= Pow(b, k)
  {
    if k > 0 {
      PowBaseMonotone(b, k - 1);
      var p := Pow(b, k - 1);
      assert b * p == 2 * p + (b - 2) * p;
      MulSign(b - 2, p);
    }
  }

  /**
   * A 16-bit value has at most 16 digits in any base from 2 up, so the
   * 17-character scratch buffer of `itoa` always holds all of them.
   */
  lemma Word16DigitCount(v: U16, b: nat)
    requires 2 <= b < 0x100
    ensures 1 <= |Digits(v, b)| <= 16 < SCRATCH_LEN
  {
    PowBaseMonotone(b, 16);
    assert Pow(2, 2) == 4 && Pow(2, 4) == 16 && Pow(2, 6) == 64 && Pow(2, 8) == 256;
    assert Pow(2, 10) == 1024 && Pow(2, 12) == 4096 && Pow(2, 14) == 16384;
    assert Pow(2, 16) == 0x1_0000;
    DigitCountBound(v, b, 16);
  }

  /** An 8-bit value has at most three decimal digits. */
  lemma ByteDecimalDigitCount(v: Byte)
    ensures 1 <= |Digits(v, 10)| <= 3
  {
    assert Pow(10, 3) == 1000;
    DigitCountBound(v, 10, 3);
  }

  /**
   * In bases up to 36 every character of `Digits` is a digit of that base,
   * and the first one is '0' only for the value zero.
   */
  lemma {:induction false} DigitsWellFormed(v: nat, b: nat)
    requires 2 <= b <= 36
    ensures forall i :: 0 <= i < |Digits(v, b)| ==> 0 <= CharDigit(Digits(v, b)[i]) < b
    ensures v > 0 <==> Digits(v, b)[0] != '0'
    decreases v
  {
    var s := Digits(v, b);
    if v < b {
      CharDigitOfDigitChar(v);
    } else {
      var q := Quot(v, b);
      DigitsWellFormed(q, b);
      CharDigitOfDigitChar(Rem(v, b));
      assert s == Digits(q, b) + [DigitChar(Rem(v, b))];
    }
  }

  /** Decimal digits are all characters '0'..'9' and none is NUL. */
  lemma DecimalDigitsAreDigits(v: nat)
    ensures forall i :: 0 <= i < |Digits(v, 10)| ==> IsDecimalDigit(Digits(v, 10)[i])
    ensures NUL !in Digits(v, 10)
  {
    DigitsWellFormed(v, 10);
  }

  lemma ItoaExamples()
    ensures Digits(0, 2) == "0" && Digits(0, 10) == "0" && Digits(0, 16) == "0"
    ensures Digits(255, 16) == "FF"
    ensures Digits(5, 2) == "101"
  {
    DivIsQuot(255, 16);
    DivIsQuot(5, 2);
    DivIsQuot(2, 2);
  }

  // ---------------------------------------------------------------------------
  // itoa
  // ---------------------------------------------------------------------------

  /** One turn of the digit loop: the next scratch digit and what is left to produce. */
  lemma LsdStep(n: nat, b: nat)
    requires 2 <= b < 0x100
    ensures DigitsLsdFirst(n, b)[0] == DigitChar(Rem(n, b))
    ensures n < b ==> |DigitsLsdFirst(n, b)| == 1 && Quot(n, b) == 0
    ensures n >= b ==> DigitsLsdFirst(n, b)[1..] == DigitsLsdFirst(Quot(n, b), b) && Quot(n, b) != 0
  {
  }

  /** Copying the scratch digits out last-first yields `Digits`. */
  lemma ReversedScratchIsDigits(v: nat, b: nat, s: seq<char>)
    requires 2 <= b < 0x100
    requires |s| >= |DigitsLsdFirst(v, b)|
    requires forall k :: 0 <= k < |DigitsLsdFirst(v, b)| ==>
      s[k] == DigitsLsdFirst(v, b)[|DigitsLsdFirst(v, b)| - 1 - k]
    ensures s[..|Digits(v, b)|] == Digits(v, b)
  {
    LsdFirstMirrorsDigits(v, b);
  }

  /**
   * The first loop of `itoa`: the digits of `v`, least significant first, in
   * a fresh 17-character scratch buffer. The loop also stops when the buffer
   * is full, which never happens first for a 16-bit value.
   */
  method FillScratch(v: U16, b: nat) returns (tmp: array<char>, len: nat)
    requires 2 <= b < 0x100
    ensures fresh(tmp) && tmp.Length == SCRATCH_LEN
    ensures len == |DigitsLsdFirst(v, b)| < SCRATCH_LEN
    ensures forall k :: 0 <= k < len ==> tmp[k] == DigitsLsdFirst(v, b)[k]
  {
    ghost var lsd := DigitsLsdFirst(v, b);
    Word16DigitCount(v, b);
    assert |lsd| < SCRATCH_LEN;
    tmp := new char[SCRATCH_LEN];
    var n: nat := v;
    var i := 0;
    var more := true;
    while more
      invariant 0 <= i <= |lsd| < SCRATCH_LEN
      invariant more ==> i + |DigitsLsdFirst(n, b)| == |lsd| && DigitsLsdFirst(n, b) == lsd[i..]
      invariant !more ==> i == |lsd|
      invariant forall k :: 0 <= k < i ==> tmp[k] == lsd[k]
      modifies tmp
      decreases SCRATCH_LEN - i
    {
      LsdStep(n, b);
      var r := Rem(n, b);
      tmp[i] := DigitChar(r);
      i := i + 1;
      if n < b {
        assert i == |lsd|;
      }
      n := Quot(n, b);
      more := n != 0 && i < SCRATCH_LEN;
    }
    len := i;
  }

  /** The second loop of `itoa`: the first `len` scratch characters copied to `str` last-first. */
  method CopyReversed(tmp: array<char>, len: nat, str: array<char>)
    requires tmp != str && len <= tmp.Length && len <= str.Length
    modifies str
    ensures forall k :: 0 <= k < len ==> str[k] == tmp[len - 1 - k]
    ensures forall k :: len <= k < str.Length ==> str[k] == old(str[k])
  {
    var i := len;
    var j := 0;
    while i > 0
      invariant 0 <= i <= len && j == len - i
      invariant forall k :: 0 <= k < j ==> str[k] == tmp[len - 1 - k]
      invariant forall k :: j <= k < str.Length ==> str[k] == old(str[k])
    {
      i := i - 1;
      str[j] := tmp[i];
      j := j + 1;
    }
  }

  /**
   * itoa: writes the digits of `v` in base `base` (10 when `base` < 2) into
   * `str`, most significant first, followed by NUL. Digits are produced least
   * significant first into a 17-character scratch buffer, then copied out in
   * reverse. The caller's buffer must hold the digits and the terminator.
   */
  method Itoa(v: U16, str: array<char>, base: Byte)
    requires str.Length > |Digits(v, EffectiveBase(base))|
    modifies str
    ensures var d := Digits(v, EffectiveBase(base));
      && str[..|d|] == d
      && str[|d|] == NUL
      && str[|d| + 1..] == old(str[|d| + 1..])
  {
    var b := EffectiveBase(base);
    var tmp, len := FillScratch(v, b);
    CopyReversed(tmp, len, str);
    ReversedScratchIsDigits(v, b, str[..]);
    str[len] := NUL;
  }

  // ---------------------------------------------------------------------------
  // atoi
  // ---------------------------------------------------------------------------

  /**
   * The longest prefix of `s` made of decimal digits. `atoi` also stops at
   * NUL and at '.', both of which are non-digits.
   */
  function LeadingDigits(s: seq<char>): (ds: seq<char>)
    ensures |ds| <= |s| && ds == s[..|ds|]
    ensures forall i :: 0 <= i < |ds| ==> IsDecimalDigit(ds[i])
    ensures |ds| == |s| || !IsDecimalDigit(s[|ds|])
  {
    if s == [] || !IsDecimalDigit(s[0]) then [] else [s[0]] + LeadingDigits(s[1..])
  }

  /**
   * What `atoi` computes from a string of decimal digits: `v*10 + digit`
   * left to right, each step truncated to 16 bits.
   */
  function Accumulate(ds: seq<char>): U16
    requires forall i :: 0 <= i < |ds| ==> IsDecimalDigit(ds[i])
  {
    if ds == [] then 0
    else (Accumulate(ds[..|ds| - 1]) * 10 + DigitValue(ds[|ds| - 1])) % WORD
  }

  /** The digit prefix of a string is determined by where its first non-digit stands. */
  lemma {:induction false} LeadingDigitsAt(s: seq<char>, k: nat)
    requires k <= |s|
    requires forall i :: 0 <= i < k ==> IsDecimalDigit(s[i])
    requires k == |s| || !IsDecimalDigit(s[k])
    ensures LeadingDigits(s) == s[..k]
  {
  }

  /** The per-step truncation of `atoi` amounts to the full decimal value modulo 2^16. */
  lemma {:induction false} AccumulateWraps(ds: seq<char>)
    requires forall i :: 0 <= i < |ds| ==> IsDecimalDigit(ds[i])
    ensures Accumulate(ds) == ValueOf(ds, 10) % WORD
  {
    if ds != [] {
      var init := ds[..|ds| - 1];
      AccumulateWraps(init);
      var x := ValueOf(init, 10);
      var d := DigitValue(ds[|ds| - 1]);
      assert ds[..|ds| - 1] == init;
      WrapStep(x, d);
    }
  }

  /** Truncating before or after one accumulation step gives the same 16 bits. */
  lemma WrapStep(x: int, d: int)
    ensures (x % WORD * 10 + d) % WORD == (x * 10 + d) % WORD
  {
    var q := x / WORD;
    assert x == q * WORD + x % WORD;
    assert x * 10 + d == q * 10 * WORD + (x % WORD * 10 + d);
  }

  /**
   * Decimal round trip: `atoi` reads back every 16-bit value `itoa` writes in
   * base 10, whatever non-digit (NUL, '.', ';', ...) or end of text follows.
   */
  lemma AtoiOfItoa(v: U16, rest: seq<char>)
    requires rest == [] || !IsDecimalDigit(rest[0])
    ensures Accumulate(LeadingDigits(Digits(v, 10) + rest)) == v
  {
    LeadingDigitsOfDigits(v, rest);
    AccumulateDigits(v);
  }

  /** `atoi` stops right after the digits `itoa` wrote when a non-digit follows them. */
  lemma LeadingDigitsOfDigits(v: nat, rest: seq<char>)
    requires rest == [] || !IsDecimalDigit(rest[0])
    ensures LeadingDigits(Digits(v, 10) + rest) == Digits(v, 10)
  {
    var d := Digits(v, 10);
    var s := d + rest;
    DecimalDigitsAreDigits(v);
    assert forall i :: 0 <= i < |d| ==> s[i] == d[i];
    LeadingDigitsAt(s, |d|);
    assert s[..|d|] == d;
  }

  /** Accumulating the decimal digits of a 16-bit value gives the value back. */
  lemma AccumulateDigits(v: U16)
    ensures forall i :: 0 <= i < |Digits(v, 10)| ==> IsDecimalDigit(Digits(v, 10)[i])
    ensures Accumulate(Digits(v, 10)) == v
  {
    DecimalDigitsAreDigits(v);
    AccumulateWraps(Digits(v, 10));
    DigitsRoundTrip(v, 10);
  }

  lemma AtoiExamples()
    ensures Accumulate(LeadingDigits("123.45")) == 123
    ensures Accumulate(LeadingDigits("abc")) == 0
    ensures Accumulate(LeadingDigits("")) == 0
  {
    LeadingDigitsAt("123.45", 3);
    assert "123.45"[..3] == "123";
    assert "123"[..2] == "12" && "12"[..1] == "1";
    LeadingDigitsAt("abc", 0);
  }


  /**
   * atoi: reads decimal digits from the start of `s` until NUL, '.', the
   * first other non-digit or the end of `s`, accumulating `v*10 + digit`
   * with 16-bit wrap-around. Text without leading digits gives 0.
   */
  method Atoi(s: seq<char>) returns (v: U16)
    ensures v == Accumulate(LeadingDigits(s))
    ensures v == ValueOf(LeadingDigits(s), 10) % WORD
  {
    v := 0;
    var k := 0;
    while k < |s| && s[k] != NUL && s[k] != '.'
      invariant 0 <= k <= |s|
      invariant forall i :: 0 <= i < k ==> IsDecimalDigit(s[i])
      invariant v == Accumulate(s[..k])
    {
      if '0' <= s[k] <= '9' {
        assert s[..k + 1][..k] == s[..k];
        v := (v * 10 + (s[k] as int - '0' as int)) % WORD;
      } else {
        break;
      }
      k := k + 1;
    }
    LeadingDigitsAt(s, k);
    AccumulateWraps(LeadingDigits(s));
  }
}
