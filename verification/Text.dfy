/** Numbers as text and back, and bounded formatting. */
module Text {
  import opened Bytes
  import opened Headers

  const INT_MIN := -0x8000_0000
  const INT_MAX := 0x7FFF_FFFF
  type int32 = x: int | INT_MIN <= x <= INT_MAX

  const PERCENT: byte := 37
  const PLUS: byte := 43
  const MINUS: byte := 45
  const ZERO: byte := 48

  /** The value that is left of `x` in a 32-bit register, read as signed. */
  function S32(x: int): (r: int)
    ensures INT_MIN <= r <= INT_MAX
  {
    var y := x % RAM_SIZE;
    if y <= INT_MAX then y else y - RAM_SIZE
  }

  /** C's division and remainder, which truncate towards zero. */
  function Quot(x: int, d: nat): int
    requires d > 0
  {
    if x >= 0 then x / d else -(-x / d)
  }

  function Rem(x: int, d: nat): int
    requires d > 0
  {
    if x >= 0 then x % d else -(-x % d)
  }

  /** A string of digits as a number, whatever the bytes are: digit values are offsets from '0'. */
  function Value(s: seq<byte>, radix: nat): int
    decreases |s|
  {
    if s == [] then 0 else Value(s[..|s| - 1], radix) * radix + (s[|s| - 1] - ZERO)
  }

  predicate IsDigit(c: byte) {
    ZERO <= c <= ZERO + 9
  }

  predicate AllDigits(s: seq<byte>) {
    forall i :: 0 <= i < |s| ==> IsDigit(s[i])
  }

  // ----- Decimal -----

  /** How many digits the counting loop finds. */
  function Width(n: int): (w: nat)
    ensures w >= 1
    decreases if n >= 0 then n else -n
  {
    if -10 < n < 10 then 1 else 1 + Width(Quot(n, 10))
  }

  lemma {:induction false} WidthBound(n: int, w: nat)
    requires 1 <= w && -1 * Pow10(w) < n < Pow10(w)
    ensures Width(n) <= w
    decreases w
  {
    if w > 1 && !(-10 < n < 10) {
      QuotBound(n, Pow10(w - 1));
      WidthBound(Quot(n, 10), w - 1);
    }
  }

  lemma QuotBound(n: int, p: nat)
    requires -10 * p < n < 10 * p
    ensures -1 * p < Quot(n, 10) < p
  {
  }

  lemma WidthOfInt(n: int32)
    ensures Width(n) <= 10
  {
    hide Width;
    assert Pow10(3) == 1000 && Pow10(6) == 1000000 && Pow10(9) == 1000000000;
    WidthBound(n, 10);
  }

  function Pow10(k: nat): (r: nat)
    ensures r >= 1
  {
    if k == 0 then 1 else 10 * Pow10(k - 1)
  }

  /** The `w` low digits that the printing loop produces; those of a negative number lie below '0'. */
  function Glyphs(n: int, w: nat): (r: seq<byte>)
    ensures |r| == w
    decreases w
  {
    if w == 0 then [] else Glyphs(Quot(n, 10), w - 1) + [ZERO + Rem(n, 10)]
  }

  /** What `utils_itoa` writes: the sign, then the digits of the magnitude. The magnitude of INT_MIN
      is INT_MIN again. */
  function Decimal(n: int32): seq<byte> {
    (if n < 0 then [MINUS] else []) + Glyphs(Magnitude(n), Width(n))
  }

  function Magnitude(n: int32): int {
    if n < 0 then S32(0 - n) else n
  }

  lemma {:induction false} WidthOfMagnitude(n: int)
    ensures Width(n) == Width(-n)
    decreases if n >= 0 then n else -n
  {
    if !(-10 < n < 10) {
      assert Quot(-n, 10) == -Quot(n, 10);
      WidthOfMagnitude(Quot(n, 10));
    }
  }

  lemma GlyphsStep(n: nat)
    ensures n < 10 ==> Width(n) == 1 && Glyphs(n, 1) == [ZERO + n]
    ensures n >= 10 ==>
              Width(n) == Width(n / 10) + 1 && Glyphs(n, Width(n)) == Glyphs(n / 10, Width(n / 10)) + [ZERO + n % 10]
  {
    if n < 10 { assert Glyphs(Quot(n, 10), 0) == []; }
  }

  lemma {:induction false} GlyphsDenote(n: nat)
    ensures var g := Glyphs(n, Width(n)); AllDigits(g) && Value(g, 10) == n && (n > 0 ==> g[0] != ZERO)
  {
    hide Glyphs, Width;
    GlyphsStep(n);
    var g := Glyphs(n, Width(n));
    if n < 10 {
      assert g[..0] == [];
    } else {
      GlyphsDenote(n / 10);
      var k := Glyphs(n / 10, Width(n / 10));
      assert g[..|g| - 1] == k;
      ValueOfSnoc(k, n % 10, 10);
    }
  }

  lemma ValueOfSnoc(k: seq<byte>, d: nat, radix: nat)
    requires d < 10
    ensures Value(k + [ZERO + d], radix) == Value(k, radix) * radix + d
  {
    assert (k + [ZERO + d])[..|k|] == k;
  }

  /** One digit for every division by ten until nothing is left, and at least one. */
  method CountDigits(num: int32) returns (digits: nat)
    ensures digits == Width(num)
  {
    digits := 1;
    var temp := Quot(num, 10);
    while temp != 0
      invariant Width(num) == digits + if temp == 0 then 0 else Width(temp)
      decreases if temp >= 0 then temp else 0 - temp
    {
      digits := digits + 1;
      temp := Quot(temp, 10);
    }
  }

  method Itoa(buf: array<byte>, num: int32) returns (len: nat)
    requires buf.Length == 64
    modifies buf
    ensures 0 < len < 64 && buf[..len] == Decimal(num) && buf[len] == 0 && NulFree(Decimal(num))
  {
    hide Glyphs, Width;
    WidthOfInt(num);
    Fill(buf, 0, 0, 64);
    var n: int := num;
    var negative := num < 0;
    if negative { n := S32(0 - num); }
    var digits := CountDigits(num);
    len := if negative then digits + 1 else digits;
    buf[len] := 0;
    Print(buf, n, digits, negative);
    GlyphsNulFree(Magnitude(num), digits);
    assert buf[..len] == (if negative then [buf[0]] else []) + buf[len - digits..len];
  }

  lemma {:induction false} GlyphsNulFree(n: int, w: nat)
    ensures NulFree(Glyphs(n, w))
    decreases w
  {
    if w > 0 { GlyphsNulFree(Quot(n, 10), w - 1); }
  }

  /** The printing loop, from the last place to the first. */
  method Print(buf: array<byte>, num: int, digits: nat, negative: bool)
    requires digits < 63 < buf.Length
    modifies buf
    ensures var lo := if negative then 1 else 0; buf[lo..lo + digits] == Glyphs(num, digits)
    ensures negative ==> buf[0] == MINUS
    ensures forall k :: digits + (if negative then 1 else 0) <= k < buf.Length ==> buf[k] == old(buf[k])
  {
    hide Glyphs, Quot, DigitOf;
    ghost var lo := if negative then 1 else 0;
    var len := if negative then digits + 1 else digits;
    var n, i := num, len;
    Low(n, digits);
    while i > 0
      invariant 0 <= i <= len && len == lo + digits
      invariant forall k :: len <= k < buf.Length ==> buf[k] == old(buf[k])
      invariant i >= lo ==> Glyphs(num, digits) == Glyphs(n, i - lo) + buf[i..len]
      invariant i < lo ==> buf[0] == MINUS && Glyphs(num, digits) == buf[lo..len]
    {
      i := i - 1;
      if negative && i == 0 {
        buf[i] := MINUS;
      } else {
        ghost var was := buf[i + 1..len];
        Low(n, i + 1 - lo);
        var digit := DigitOf(n);
        buf[i] := digit;
        assert buf[i..len] == [digit] + was;
        n := Quot(n, 10);
        assert Glyphs(n, i - lo) + [digit] + was == Glyphs(n, i - lo) + ([digit] + was);
      }
    }
  }

  function DigitOf(n: int): byte {
    ZERO + Rem(n, 10)
  }

  lemma Low(n: int, w: nat)
    ensures Glyphs(n, w) == if w == 0 then [] else Glyphs(Quot(n, 10), w - 1) + [DigitOf(n)]
  {
  }

  // ----- Back to a number -----

  function Blanks(s: seq<byte>): (r: nat)
    ensures r <= |s| && (forall i :: 0 <= i < r ==> s[i] == 32) && (r < |s| ==> s[r] != 32)
  {
    if s != [] && s[0] == 32 then 1 + Blanks(s[1..]) else 0
  }

  /** Length of the run of digits that `s` starts with. */
  function DigitRun(s: seq<byte>): (r: nat)
    ensures r <= |s| && AllDigits(s[..r]) && (r < |s| ==> !IsDigit(s[r]))
  {
    if s != [] && IsDigit(s[0]) then 1 + DigitRun(s[1..]) else 0
  }

  /** Blanks, at most one sign, digits, in 32-bit arithmetic. */
  function Number(s: seq<byte>): int {
    var t := s[Blanks(s)..];
    var signed := t != [] && (t[0] == MINUS || t[0] == PLUS);
    var u := if signed then t[1..] else t;
    var v := Value(u[..DigitRun(u)], 10);
    S32(if signed && t[0] == MINUS then 0 - v else v)
  }

  /** So blanks in front and whatever follows the digits make no difference, nor does a plus sign. */
  lemma NumberReads(b: seq<byte>, sign: seq<byte>, g: seq<byte>, rest: seq<byte>)
    requires (forall i :: 0 <= i < |b| ==> b[i] == 32) && (sign == [] || sign == [43] || sign == [45])
    requires g != [] && AllDigits(g) && (rest != [] ==> !IsDigit(rest[0]))
    ensures Number(b + (sign + (g + rest))) == S32(if sign == [45] then 0 - Value(g, 10) else Value(g, 10))
  {
    hide Value, Blanks, DigitRun, S32, IsDigit, AllDigits;
    var u := g + rest;
    var t := sign + u;
    FirstDigit(g);
    BlanksOf(b, t);
    DigitsOf(g, rest);
    assert (b + t)[|b|..] == t && t[|sign|..] == u && u[..|g|] == g;
  }

  lemma FirstDigit(g: seq<byte>)
    requires g != [] && AllDigits(g)
    ensures g[0] != 32 && g[0] != MINUS && g[0] != PLUS
  {
    assert IsDigit(g[0]);
  }

  lemma {:induction false} BlanksOf(b: seq<byte>, t: seq<byte>)
    requires (forall i :: 0 <= i < |b| ==> b[i] == 32) && (t != [] ==> t[0] != 32)
    ensures Blanks(b + t) == |b|
    decreases |b|
  {
    if b == [] {
      assert b + t == t;
    } else {
      assert (b + t)[1..] == b[1..] + t;
      BlanksOf(b[1..], t);
    }
  }

  lemma {:induction false} DigitsOf(g: seq<byte>, t: seq<byte>)
    requires AllDigits(g) && (t != [] ==> !IsDigit(t[0]))
    ensures DigitRun(g + t) == |g|
    decreases |g|
  {
    if g == [] {
      assert g + t == t;
    } else {
      assert (g + t)[1..] == g[1..] + t;
      DigitsOf(g[1..], t);
    }
  }

  /** Reducing at every step is reducing once. */
  lemma Reduce(a: int, b: int, radix: nat)
    ensures S32(S32(a) * radix + b) == S32(a * radix + b)
  {
    var k := if a % RAM_SIZE <= INT_MAX then a / RAM_SIZE else a / RAM_SIZE + 1;
    assert a == S32(a) + RAM_SIZE * k;
    SameResidue(S32(a) * radix + b, a * radix + b, k * radix);
  }

  lemma SameResidue(x: int, y: int, k: int)
    requires y == x + RAM_SIZE * k
    ensures S32(x) == S32(y)
  {
    assert x / RAM_SIZE * RAM_SIZE + x % RAM_SIZE + RAM_SIZE * k == y;
    assert (x / RAM_SIZE + k) * RAM_SIZE + x % RAM_SIZE == y;
    Residue(y, x / RAM_SIZE + k, x % RAM_SIZE);
  }

  lemma Negate(v: int)
    ensures S32(0 - S32(v)) == S32(0 - v)
  {
    var k := if v % RAM_SIZE <= INT_MAX then v / RAM_SIZE else v / RAM_SIZE + 1;
    SameResidue(0 - v, 0 - S32(v), k);
  }

  lemma ValueSnoc(s: seq<byte>, radix: nat, i: nat)
    requires i < |s|
    ensures Value(s[..i + 1], radix) == Value(s[..i], radix) * radix + (s[i] - ZERO)
  {
    assert s[..i + 1][..i] == s[..i];
  }

  /** The value of the digits at `ptr`; `u` is what is left of the string. */
  method Digits(buf: array<byte>, ptr: nat, ghost u: seq<byte>) returns (result: int)
    requires ptr + |u| < buf.Length && buf[ptr..ptr + |u|] == u && buf[ptr + |u|] == 0
    ensures result == S32(Value(u[..DigitRun(u)], 10))
  {
    hide S32, Value;
    result := 0;
    var k := 0;
    NoDigits();
    assert u[..0] == [];
    while IsDigit(buf[ptr + k])
      invariant 0 <= k <= DigitRun(u)
      invariant result == S32(Value(u[..k], 10))
      decreases |u| - k
    {
      assert k < |u| ==> buf[ptr + k] == buf[ptr..ptr + |u|][k] == u[k];
      assert k < DigitRun(u);
      ValueSnoc(u, 10, k);
      Reduce(Value(u[..k], 10), u[k] - ZERO, 10);
      result := S32(result * 10 + (buf[ptr + k] - ZERO));
      k := k + 1;
    }
    assert k < |u| ==> buf[ptr + k] == buf[ptr..ptr + |u|][k] == u[k];
  }

  lemma NoDigits()
    ensures S32(Value([], 10)) == 0
  {
  }

  method SkipBlanks(buf: array<byte>, p: nat, ghost s: seq<byte>) returns (ptr: nat)
    requires p + |s| < buf.Length && buf[p..p + |s|] == s && buf[p + |s|] == 0
    ensures ptr == Blanks(s) && buf[p + ptr] == if ptr < |s| then s[ptr] else 0
  {
    ptr := 0;
    while buf[p + ptr] == 32
      invariant 0 <= ptr <= Blanks(s)
      decreases |s| - ptr
    {
      assert ptr < |s| ==> buf[p + ptr] == buf[p..p + |s|][ptr] == s[ptr];
      ptr := ptr + 1;
    }
    assert ptr < |s| ==> buf[p + ptr] == buf[p..p + |s|][ptr] == s[ptr];
  }

  /** The string is the bytes before its terminator. */
  method Atoi(buf: array<byte>, p: nat, ghost s: seq<byte>) returns (r: int)
    requires p + |s| < buf.Length && buf[p..p + |s|] == s && NulFree(s) && buf[p + |s|] == 0
    ensures r == Number(s)
  {
    hide S32, Value, DigitRun, NulFree;
    var sign := 1;
    var ptr := SkipBlanks(buf, p, s);
    ghost var t := s[ptr..];
    if buf[p + ptr] == MINUS {
      sign := -1;
      ptr := ptr + 1;
    } else if buf[p + ptr] == PLUS {
      ptr := ptr + 1;
    }
    ghost var u := s[ptr..];
    Behind(buf[..], p, s, ptr);
    r := Digits(buf, p + ptr, u);
    Negate(Value(u[..DigitRun(u)], 10));
    Settle(Value(u[..DigitRun(u)], 10));
    r := S32(sign * r);
    assert ptr > Blanks(s) ==> u == t[1..];
  }

  lemma Behind(m: seq<byte>, p: nat, s: seq<byte>, k: nat)
    requires p + |s| < |m| && m[p..p + |s|] == s && k <= |s|
    ensures m[p + k..p + |s|] == s[k..]
  {
    assert m[p..p + |s|][k..] == m[p + k..p + |s|];
  }

  lemma Settle(v: int)
    ensures S32(1 * S32(v)) == S32(v) && S32(-1 * S32(v)) == S32(0 - S32(v))
  {
  }

  /** `atoi(utils_itoa(n)) == n` exactly for the numbers whose negation is a number. */
  lemma RoundTripIff(n: int32)
    ensures Number(Decimal(n)) == n <==> n != INT_MIN
  {
    hide Number, Decimal;
    if n == INT_MIN {
      MinimumHasNoDigits();
    } else {
      MagnitudeOf(n);
      GlyphsDenote(Magnitude(n));
      WidthOfMagnitude(n);
      SignedNumber(n, Glyphs(Magnitude(n), Width(Magnitude(n))));
    }
  }

  lemma MagnitudeOf(n: int32)
    requires n != INT_MIN
    ensures Magnitude(n) == if n < 0 then 0 - n else n
  {
  }

  /** A sign and digits read back as the number they denote. */
  lemma SignedNumber(n: int32, g: seq<byte>)
    requires n != INT_MIN && AllDigits(g) && g != [] && Value(g, 10) == Magnitude(n)
    requires g == Glyphs(Magnitude(n), Width(n))
    ensures Number(Decimal(n)) == n
  {
    hide Glyphs, Width, Value;
    var s := Decimal(n);
    MagnitudeOf(n);
    assert DigitRun(g) == |g| && g[..|g|] == g;
    assert IsDigit(g[0]);
    assert Blanks(s) == 0 && s[0..] == s;
    assert n < 0 ==> s[1..] == g;
  }

  lemma MinimumHasNoDigits()
    ensures var s := Decimal(INT_MIN); |s| > 1 && s[0] == MINUS && !IsDigit(s[1]) && Number(s) == 0
  {
    var s := Decimal(INT_MIN);
    var w := Width(INT_MIN);
    LeadingBelowZero(INT_MIN, w);
    assert s[1..] == Glyphs(INT_MIN, w);
    assert Blanks(s) == 0 && DigitRun(s[1..]) == 0;
    assert s[1..][..0] == [];
  }

  /** The first digit of a negative number, written without negating it, is no digit. */
  lemma {:induction false} LeadingBelowZero(n: int, w: nat)
    requires n < 0 && w == Width(n)
    ensures Glyphs(n, w)[0] < ZERO
    decreases w
  {
    if -10 < n {
      assert Glyphs(Quot(n, 10), 0) == [];
    } else {
      LeadingBelowZero(Quot(n, 10), w - 1);
    }
  }

  // ----- Hexadecimal -----

  function HexDigit(d: nat): (c: byte)
    requires d < 16
    ensures d < 10 ==> c == ZERO + d
    ensures d >= 10 ==> c == 65 + (d - 10)
  {
    if d < 10 then ZERO + d else 65 + (d - 10)
  }

  /** The digit a character stands for, or 16. */
  function HexValue(c: byte): nat {
    if IsDigit(c) then c - ZERO else if 65 <= c < 71 then c - 55 else 16
  }

  function HexNumber(s: seq<byte>): nat
    decreases |s|
  {
    if s == [] then 0 else HexNumber(s[..|s| - 1]) * 16 + HexValue(s[|s| - 1])
  }

  predicate AllHex(s: seq<byte>) {
    forall i :: 0 <= i < |s| ==> HexValue(s[i]) < 16
  }

  /** `s` is the hexadecimal numeral of `n`, without leading zeros. */
  predicate IsHex(s: seq<byte>, n: nat) {
    s != [] && AllHex(s) && HexNumber(s) == n && (s[0] == ZERO ==> |s| == 1)
  }

  function HexText(n: nat): (s: seq<byte>)
    ensures s != []
  {
    if n < 16 then [HexDigit(n)] else HexText(n / 16) + [HexDigit(n % 16)]
  }

  lemma {:induction false} HexTextDenotes(n: nat)
    ensures IsHex(HexText(n), n) && (n > 0 ==> HexText(n)[0] != ZERO)
  {
    if n < 16 {
      assert HexText(n)[..0] == [];
    } else {
      HexTextDenotes(n / 16);
      var s := HexText(n);
      assert s[..|s| - 1] == HexText(n / 16);
    }
  }

  /** There is only one such numeral, so the text determines the number and the number the text. */
  lemma {:induction false} HexUnique(s: seq<byte>, n: nat)
    requires IsHex(s, n)
    ensures s == HexText(n)
    decreases |s|
  {
    hide HexNumber, HexValue, HexDigit;
    var k := |s| - 1;
    var d := HexValue(s[k]);
    HexUnfold(s);
    HexInverse(s[k]);
    assert s == s[..k] + [s[k]];
    if k > 0 {
      HexPositive(s[..k]);
      HexUnique(s[..k], HexNumber(s[..k]));
      assert n / 16 == HexNumber(s[..k]) && n % 16 == d;
    }
  }

  lemma HexInverse(c: byte)
    ensures HexValue(c) < 16 ==> HexDigit(HexValue(c)) == c
  {
  }

  lemma HexUnfold(s: seq<byte>)
    requires s != []
    ensures HexNumber(s) == HexNumber(s[..|s| - 1]) * 16 + HexValue(s[|s| - 1]) && HexNumber([]) == 0
  {
    hide HexValue;
  }

  lemma {:induction false} HexPositive(s: seq<byte>)
    requires s != [] && AllHex(s) && s[0] != ZERO
    ensures HexNumber(s) > 0
    decreases |s|
  {
    if |s| > 1 { HexPositive(s[..|s| - 1]); }
  }

  function Pow16(k: nat): (r: nat)
    ensures r >= 1
  {
    if k == 0 then 1 else 16 * Pow16(k - 1)
  }

  lemma {:induction false} HexLength(n: nat, k: nat)
    requires k >= 1 && n < Pow16(k)
    ensures |HexText(n)| <= k
    decreases k
  {
    if k > 1 && n >= 16 { HexLength(n / 16, k - 1); }
  }

  function Mirror(s: seq<byte>): (r: seq<byte>)
    ensures |r| == |s| && forall i :: 0 <= i < |s| ==> r[i] == s[|s| - 1 - i]
  {
    seq(|s|, i requires 0 <= i < |s| => s[|s| - 1 - i])
  }

  /** The digits come out backwards and are turned round in place. */
  method Xtoa(buf: array<byte>, num: word) returns (len: nat)
    requires buf.Length == 64
    modifies buf
    ensures len < 64 && buf[..len] == HexText(num) && buf[len] == 0 && NulFree(buf[..len]) && IsHex(buf[..len], num)
  {
    hide HexText, HexValue, HexNumber;
    HexTextDenotes(num);
    HexOfWord(num);
    Fill(buf, 0, 0, 64);
    len := 0;
    if num == 0 {
      buf[0], buf[1], len := ZERO, 0, 1;
      assert buf[..1] == [ZERO];
      return;
    }
    len := Backwards(buf, num);
    buf[len] := 0;
    Turn(buf, len);
  }

  /** The digits of `num`, the last one first. */
  method Backwards(buf: array<byte>, num: word) returns (len: nat)
    requires buf.Length == 64 && num > 0 && |HexText(num)| <= 8
    modifies buf
    ensures len <= 8 && HexText(num) == Mirror(buf[..len])
  {
    hide HexText;
    len := 0;
    var n: nat := num;
    while n != 0
      invariant 0 <= len <= 8 && |HexText(num)| <= 8
      invariant HexText(num) == (if n == 0 then [] else HexText(n)) + Mirror(buf[..len])
    {
      HexStep(n);
      var remainder := n % 16;
      ghost var was := buf[..len];
      buf[len] := if remainder < 10 then ZERO + remainder else remainder - 10 + 65;
      MirrorSnoc(was, buf[len]);
      assert buf[..len + 1] == was + [buf[len]];
      len := len + 1;
      n := n / 16;
    }
  }

  lemma HexStep(n: nat)
    requires n > 0
    ensures HexText(n) == (if n / 16 == 0 then [] else HexText(n / 16)) + [HexDigit(n % 16)]
  {
  }

  lemma MirrorSnoc(s: seq<byte>, c: byte)
    ensures Mirror(s + [c]) == [c] + Mirror(s)
  {
  }

  lemma HexOfWord(n: word)
    ensures |HexText(n)| <= 8 && NulFree(HexText(n)) && HexText(0) == [ZERO]
  {
    hide HexText;
    assert Pow16(4) == 0x1_0000 && Pow16(8) == 0x1_0000_0000;
    HexLength(n, 8);
    HexTextDenotes(n);
    HexZero();
  }

  lemma HexZero()
    ensures HexText(0) == [ZERO]
  {
  }

  /** The in-place reversal. */
  method Turn(buf: array<byte>, n: nat)
    requires n < buf.Length
    modifies buf
    ensures buf[..n] == Mirror(old(buf[..n])) && forall k :: n <= k < buf.Length ==> buf[k] == old(buf[k])
  {
    var j := 0;
    while j < n / 2
      invariant 0 <= j <= n / 2
      invariant forall k :: 0 <= k < buf.Length && !(0 <= k < j) && !(n - j <= k < n) ==> buf[k] == old(buf[k])
      invariant forall k :: 0 <= k < j ==> buf[k] == old(buf[n - 1 - k])
      invariant forall k :: n - j <= k < n ==> buf[k] == old(buf[n - 1 - k])
    {
      buf[j], buf[n - j - 1] := buf[n - j - 1], buf[j];
      j := j + 1;
    }
  }

  // ----- Octal -----

  /** `utils_oct2bin` on the `len` bytes at `p`: their value in 32-bit arithmetic. `char` is signed,
      but a byte above the ASCII range differs from its signed value by 256. */
  function Signed(c: byte): int { if c < 128 then c else c - 256 }

  function OctValue(s: seq<byte>): int
    decreases |s|
  {
    if s == [] then 0 else OctValue(s[..|s| - 1]) * 8 + (Signed(s[|s| - 1]) - ZERO)
  }

  method Oct2Bin(m: array<byte>, p: nat, len: nat) returns (n: int32)
    requires p + len <= m.Length
    ensures n == S32(OctValue(m[p..p + len]))
  {
    n := 0;
    var i := 0;
    ghost var s := m[p..p + len];
    while i < len
      invariant 0 <= i <= len && n == S32(OctValue(s[..i]))
    {
      assert s[..i + 1][..i] == s[..i] && s[i] == m[p + i];
      Reduce(OctValue(s[..i]), Signed(s[i]) - ZERO, 8);
      n := S32(n * 8);
      MulAdd(OctValue(s[..i]), Signed(s[i]) - ZERO);
      n := S32(n + (Signed(m[p + i]) - ZERO));
      i := i + 1;
    }
    assert s[..len] == s;
  }

  lemma MulAdd(v: int, d: int)
    ensures S32(S32(S32(v) * 8) + d) == S32(v * 8 + d)
  {
    Reduce(S32(v) * 8, d, 1);
    Reduce(v, d, 8);
  }

  /** Reference encoder: `w` octal digits. */
  function Octal(n: nat, w: nat): (s: seq<byte>)
    ensures |s| == w
  {
    if w == 0 then [] else Octal(n / 8, w - 1) + [ZERO + n % 8]
  }

  function Pow8(k: nat): (r: nat)
    ensures r >= 1
  {
    if k == 0 then 1 else 8 * Pow8(k - 1)
  }

  lemma {:induction false} OctalDenotes(n: nat, w: nat)
    requires n < Pow8(w)
    ensures OctValue(Octal(n, w)) == n
    decreases w
  {
    if w > 0 {
      OctalDenotes(n / 8, w - 1);
      var s := Octal(n, w);
      assert s[..w - 1] == Octal(n / 8, w - 1);
    }
  }

  /** Eleven digits carry every 32-bit size through the signed conversion. */
  lemma SizeSurvives(n: word)
    ensures S32(OctValue(Octal(n, 11))) % RAM_SIZE == n
  {
    hide OctValue, Octal;
    assert Pow8(3) == 512 && Pow8(6) == 262144 && Pow8(9) == 134217728 && Pow8(11) == 8589934592;
    OctalDenotes(n, 11);
  }

  // ----- Formatting -----

  datatype Arg = Int(n: int32) | Hex(w: word) | Char(c: byte) | Str(s: seq<byte>)

  const D: byte := 100
  const X: byte := 120
  const C: byte := 99
  const S: byte := 115

  predicate Takes(f: byte) { f == D || f == X || f == C || f == S }

  /** The arguments a format asks for are there and of the right kind, strings without a NUL. */
  predicate Fits(fmt: seq<byte>, args: seq<Arg>)
    decreases |fmt|
  {
    if fmt == [] then true
    else if fmt[0] != PERCENT then Fits(fmt[1..], args)
    else if |fmt| == 1 then true
    else if !Takes(fmt[1]) then Fits(fmt[2..], args)
    else
      && args != []
      && (fmt[1] == D ==> args[0].Int?) && (fmt[1] == X ==> args[0].Hex?)
      && (fmt[1] == C ==> args[0].Char?) && (fmt[1] == S ==> args[0].Str? && NulFree(args[0].s))
      && Fits(fmt[2..], args[1..])
  }

  function Shown(a: Arg): seq<byte> {
    match a
    case Int(n) => Decimal(n)
    case Hex(w) => HexText(w)
    case Char(c) => [c]
    case Str(s) => s
  }

  /** `s` is the decimal numeral of `n`, without leading zeros. */
  predicate IsDecimal(s: seq<byte>, n: nat) {
    s != [] && AllDigits(s) && Value(s, 10) == n && (s[0] == ZERO ==> |s| == 1)
  }

  /** What the text of an argument has to be. The least number has no digits of its own. */
  ghost predicate Denotes(s: seq<byte>, a: Arg) {
    match a
    case Int(n) =>
      if n == INT_MIN then s != [] && s[0] == 45
      else if n < 0 then s != [] && s[0] == 45 && IsDecimal(s[1..], -n)
      else IsDecimal(s, n)
    case Hex(w) => IsHex(s, w)
    case Char(c) => s == [c]
    case Str(t) => s == t
  }

  lemma ShownDenotes(a: Arg)
    ensures Denotes(Shown(a), a)
  {
    hide Glyphs, Width, Value, HexText, HexNumber, Magnitude, IsDecimal, IsHex;
    match a
    case Int(n) => if n != INT_MIN { DecimalDenotes(n); }
    case Hex(w) => HexTextDenotes(w);
    case _ =>
  }

  lemma DecimalDenotes(n: int32)
    requires n != INT_MIN
    ensures if n < 0 then Decimal(n)[0] == 45 && IsDecimal(Decimal(n)[1..], -n) else IsDecimal(Decimal(n), n)
  {
    hide Glyphs, Width, Value;
    MagnitudeOf(n);
    var m := Magnitude(n);
    GlyphsDenote(m);
    WidthOfMagnitude(n);
    GlyphsStep(m);
    assert n < 0 ==> Decimal(n)[1..] == Glyphs(m, Width(m));
    assert n >= 0 ==> Decimal(n) == Glyphs(m, Width(m));
  }

  /** The text without any limit. An unknown directive stands for itself; a lone '%' at the end
      stands for nothing. */
  function Expand(fmt: seq<byte>, args: seq<Arg>): seq<byte>
    requires Fits(fmt, args)
    decreases |fmt|
  {
    if fmt == [] then []
    else if fmt[0] != PERCENT then [fmt[0]] + Expand(fmt[1..], args)
    else if |fmt| == 1 then []
    else if !Takes(fmt[1]) then [PERCENT, fmt[1]] + Expand(fmt[2..], args)
    else Shown(args[0]) + Expand(fmt[2..], args[1..])
  }

  /** The directive that an argument goes with. */
  function Letter(a: Arg): byte {
    match a
    case Int(_) => 100
    case Hex(_) => 120
    case Char(_) => 99
    case Str(_) => 115
  }

  /** Text stands for itself, and a '%' at the end for nothing. */
  lemma {:induction false} ExpandText(lit: seq<byte>, args: seq<Arg>)
    requires 37 !in lit
    ensures Fits(lit, args) && Expand(lit, args) == lit && Fits(lit + [37], args) && Expand(lit + [37], args) == lit
    decreases |lit|
  {
    if lit == [] {
      assert lit + [37] == [37];
    } else {
      ExpandText(lit[1..], args);
      assert (lit + [37])[1..] == lit[1..] + [37];
    }
  }

  /** A directive stands for the argument whose turn it is, and what is no directive for itself. */
  lemma {:induction false} ExpandDirective(lit: seq<byte>, rest: seq<byte>, a: Arg, args: seq<Arg>)
    requires 37 !in lit && Fits(rest, args) && (a.Str? ==> NulFree(a.s))
    ensures var s := lit + ([37, Letter(a)] + rest);
            Fits(s, [a] + args) && Expand(s, [a] + args) == lit + (Shown(a) + Expand(rest, args))
    decreases |lit|
  {
    hide Shown;
    var d := [37, Letter(a)] + rest;
    if lit == [] {
      assert lit + d == d && d[2..] == rest && ([a] + args)[1..] == args && ([a] + args)[0] == a;
      assert lit + (Shown(a) + Expand(rest, args)) == Shown(a) + Expand(rest, args);
    } else {
      ExpandDirective(lit[1..], rest, a, args);
      LeadIn(lit, d, [a] + args);
      assert lit + (Shown(a) + Expand(rest, args)) == [lit[0]] + (lit[1..] + (Shown(a) + Expand(rest, args)));
    }
  }

  lemma LeadIn(lit: seq<byte>, d: seq<byte>, args: seq<Arg>)
    requires lit != [] && lit[0] != 37 && Fits(lit[1..] + d, args)
    ensures Fits(lit + d, args) && Expand(lit + d, args) == [lit[0]] + Expand(lit[1..] + d, args)
  {
    assert (lit + d)[1..] == lit[1..] + d && (lit + d)[0] == lit[0];
  }

  lemma {:induction false} ExpandUnknown(lit: seq<byte>, f: byte, rest: seq<byte>, args: seq<Arg>)
    requires 37 !in lit && Fits(rest, args) && f != 100 && f != 120 && f != 99 && f != 115
    ensures var s := lit + ([37, f] + rest); Fits(s, args) && Expand(s, args) == lit + ([37, f] + Expand(rest, args))
    decreases |lit|
  {
    var d := [37, f] + rest;
    if lit == [] {
      assert lit + d == d && d[2..] == rest;
      assert lit + ([37, f] + Expand(rest, args)) == [37, f] + Expand(rest, args);
    } else {
      ExpandUnknown(lit[1..], f, rest, args);
      LeadIn(lit, d, args);
      assert lit + ([37, f] + Expand(rest, args)) == [lit[0]] + (lit[1..] + ([37, f] + Expand(rest, args)));
    }
  }

  /** At most the first `n` bytes. */
  function Clip(s: seq<byte>, n: nat): (r: seq<byte>)
    ensures r <= s && |r| == if |s| < n then |s| else n
  {
    if |s| < n then s else s[..n]
  }

  /** `n` bytes written at `at` so far are the start of `e`, cut off at `cap`; nothing else in the
      array differs from `was`, the byte for the terminator aside. */
  ghost predicate Written(was: seq<byte>, now: seq<byte>, at: nat, n: nat, cap: nat, e: seq<byte>) {
    && |was| == |now| && n <= cap && at + cap < |now|
    && now[at..at + n] == Clip(e, cap) && Same(was, now, 0, at) && Same(was, now, at + n, |now|)
  }

  lemma ClipTwice(a: seq<byte>, b: seq<byte>, c: seq<byte>, n: nat)
    ensures Clip(Clip(a, n) + b, n) == Clip(a + b, n)
    ensures Clip(a + (b + c), n) == Clip((a + b) + c, n)
    ensures |Clip(a, n)| == n ==> Clip(a + b, n) == Clip(a, n)
  {
    assert a + (b + c) == (a + b) + c;
  }

  /** The inner loops: the characters of a string while there is room. */
  method Emit(buf: array<byte>, at: nat, written: nat, cap: nat, src: array<byte>, ghost s: seq<byte>,
              ghost was: seq<byte>, ghost e: seq<byte>)
    returns (w: nat)
    requires src != buf && |s| < src.Length && src[..|s|] == s && NulFree(s) && src[|s|] == 0
    requires Written(was, buf[..], at, written, cap, e)
    modifies buf
    ensures Written(was, buf[..], at, w, cap, e + s)
  {
    hide Clip, Written;
    w := written;
    var j := 0;
    assert e + s[..0] == e;
    while src[j] != 0 && w < cap
      invariant 0 <= j <= |s| && w == written + j && (w <= cap || j == 0)
      invariant Written(was, buf[..], at, w, cap, e + s[..j])
      decreases |s| - j
    {
      assert src[j] == src[..|s|][j];
      w := EmitOne(buf, at, w, cap, src[j], was, e + s[..j]);
      assert e + s[..j] + [s[j]] == e + s[..j + 1];
      j := j + 1;
    }
    assert j < |s| ==> src[j] == src[..|s|][j] == s[j];
    assert s[..|s|] == s;
    Capped(was, buf[..], at, w, cap, e + s[..j]);
    if w == cap { Full(was, buf[..], at, w, cap, e + s[..j], s[j..]); }
    assert e + s[..j] + s[j..] == e + s;
  }

  lemma Capped(was: seq<byte>, now: seq<byte>, at: nat, n: nat, cap: nat, e: seq<byte>)
    requires Written(was, now, at, n, cap, e)
    ensures n <= cap
  {
  }

  lemma Full(was: seq<byte>, now: seq<byte>, at: nat, n: nat, cap: nat, e: seq<byte>, s: seq<byte>)
    requires Written(was, now, at, n, cap, e) && n == cap
    ensures Written(was, now, at, n, cap, e + s)
  {
    ClipTwice(e, s, [], cap);
  }

  /** `buffer[written++] = c` where there is room. */
  method EmitOne(buf: array<byte>, at: nat, written: nat, cap: nat, c: byte, ghost was: seq<byte>, ghost e: seq<byte>)
    returns (w: nat)
    requires Written(was, buf[..], at, written, cap, e) && written < cap
    modifies buf
    ensures w == written + 1 && Written(was, buf[..], at, w, cap, e + [c])
  {
    ghost var m := buf[..];
    buf[at + written] := c;
    w := written + 1;
    assert buf[at..at + w] == m[at..at + written] + [c];
  }

  method EmitChar(buf: array<byte>, at: nat, written: nat, cap: nat, c: byte, ghost was: seq<byte>, ghost e: seq<byte>)
    returns (w: nat)
    requires Written(was, buf[..], at, written, cap, e)
    modifies buf
    ensures Written(was, buf[..], at, w, cap, e + [c])
  {
    w := written;
    if w < cap {
      w := EmitOne(buf, at, w, cap, c, was, e);
    } else {
      Full(was, buf[..], at, w, cap, e, [c]);
    }
  }

  /** A directive that is none: the '%' and the character behind it. */
  method EmitUnknown(buf: array<byte>, at: nat, written: nat, cap: nat, f: byte, ghost was: seq<byte>,
                     ghost e: seq<byte>) returns (w: nat)
    requires Written(was, buf[..], at, written, cap, e) && written < cap
    modifies buf
    ensures Written(was, buf[..], at, w, cap, e + ([PERCENT] + [f]))
  {
    hide Written;
    w := EmitOne(buf, at, written, cap, PERCENT, was, e);
    w := EmitChar(buf, at, w, cap, f, was, e + [PERCENT]);
    assert e + [PERCENT] + [f] == e + ([PERCENT] + [f]);
  }

  /** One argument, by its directive. `scratch` is the buffer of the number routines. */
  method EmitArg(buf: array<byte>, at: nat, written: nat, cap: nat, a: Arg, scratch: array<byte>, ghost was: seq<byte>,
                 ghost e: seq<byte>)
    returns (w: nat)
    requires scratch != buf && scratch.Length == 64 && (a.Str? ==> NulFree(a.s))
    requires Written(was, buf[..], at, written, cap, e)
    modifies buf, scratch
    ensures Written(was, buf[..], at, w, cap, e + Shown(a))
  {
    hide Clip, Written, Decimal, HexText;
    match a
    case Int(n) =>
      var len := Itoa(scratch, n);
      w := Emit(buf, at, written, cap, scratch, Decimal(n), was, e);
    case Hex(h) =>
      var len := Xtoa(scratch, h);
      w := Emit(buf, at, written, cap, scratch, HexText(h), was, e);
    case Char(c) =>
      w := EmitChar(buf, at, written, cap, c, was, e);
    case Str(s) =>
      var src := new byte[|s| + 1](i requires 0 <= i < |s| + 1 => if i < |s| then s[i] else 0);
      assert src[..|s|] == s;
      w := Emit(buf, at, written, cap, src, s, was, e);
  }

  lemma Unroll(fmt: seq<byte>, i: nat, args: seq<Arg>)
    requires i < |fmt| && Fits(fmt[i..], args)
    ensures fmt[i] != PERCENT ==>
              Fits(fmt[i + 1..], args) && Expand(fmt[i..], args) == [fmt[i]] + Expand(fmt[i + 1..], args)
    ensures fmt[i] == PERCENT && i + 1 == |fmt| ==> Expand(fmt[i..], args) == []
    ensures fmt[i] == PERCENT && i + 1 < |fmt| && !Takes(fmt[i + 1]) ==>
              && Fits(fmt[i + 2..], args)
              && Expand(fmt[i..], args) == [PERCENT] + [fmt[i + 1]] + Expand(fmt[i + 2..], args)
    ensures fmt[i] == PERCENT && i + 1 < |fmt| && Takes(fmt[i + 1]) ==>
              && args != [] && (args[0].Str? ==> NulFree(args[0].s)) && Fits(fmt[i + 2..], args[1..])
              && Expand(fmt[i..], args) == Shown(args[0]) + Expand(fmt[i + 2..], args[1..])
  {
    assert fmt[i..][1..] == fmt[i + 1..];
    if i + 1 < |fmt| { assert fmt[i..][2..] == fmt[i + 2..]; }
  }

  /** `snprintf`: at most `size - 1` bytes and a terminator, and what is written is the unlimited
      text cut off there. */
  method Snprintf(buf: array<byte>, at: nat, size: nat, fmt: seq<byte>, args: seq<Arg>, scratch: array<byte>)
    returns (written: nat)
    requires 0 < size && at + size <= buf.Length && scratch != buf && scratch.Length == 64 && Fits(fmt, args)
    modifies buf, scratch
    ensures written < size && buf[at..at + written] == Clip(Expand(fmt, args), size - 1) && buf[at + written] == 0
    ensures Same(old(buf[..]), buf[..], 0, at) && Same(old(buf[..]), buf[..], at + written + 1, buf.Length)
  {
    hide Clip, Written, Decimal, HexText, Expand, Shown, Fits;
    ghost var was, e, all := buf[..], [], Expand(fmt, args);
    var rest := args;
    var cap := size - 1;
    written := 0;
    var i := 0;
    Begin(was, at, cap);
    assert fmt[0..] == fmt;
    while i < |fmt| && written < cap
      invariant 0 <= i <= |fmt| && Fits(fmt[i..], rest) && all == e + Expand(fmt[i..], rest)
      invariant Written(was, buf[..], at, written, cap, e)
      decreases |fmt| - i
    {
      Unroll(fmt, i, rest);
      if fmt[i] == PERCENT {
        i := i + 1;
        if i == |fmt| {
          assert all == e;
          break;
        }
        if Takes(fmt[i]) {
          written := EmitArg(buf, at, written, cap, rest[0], scratch, was, e);
          e := e + Shown(rest[0]);
          rest := rest[1..];
        } else {
          written := EmitUnknown(buf, at, written, cap, fmt[i], was, e);
          e := e + ([PERCENT] + [fmt[i]]);
        }
      } else {
        written := EmitOne(buf, at, written, cap, fmt[i], was, e);
        e := e + [fmt[i]];
      }
      i := i + 1;
    }
    Capped(was, buf[..], at, written, cap, e);
    assert i == |fmt| ==> fmt[i..] == [];
    Nothing(rest);
    assert e <= all;
    Finish(was, buf[..], at, written, cap, e, all);
    buf[at + written] := 0;
  }

  lemma Nothing(args: seq<Arg>)
    ensures Fits([], args) && Expand([], args) == []
  {
  }

  lemma Begin(was: seq<byte>, at: nat, cap: nat)
    requires at + cap < |was|
    ensures Written(was, was, at, 0, cap, [])
  {
  }

  lemma Finish(was: seq<byte>, now: seq<byte>, at: nat, n: nat, cap: nat, e: seq<byte>, all: seq<byte>)
    requires Written(was, now, at, n, cap, e) && e <= all && (n == cap || e == all)
    ensures at + n < |now| && n <= cap && now[at..at + n] == Clip(all, cap)
    ensures Same(was, now, 0, at) && Same(was, now, at + n, |now|)
  {
    assert all == e + all[|e|..];
    ClipTwice(e, all[|e|..], [], cap);
  }
}
