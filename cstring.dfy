/**
 * Byte strings as the daemon sees them: NUL-terminated C strings inside
 * fixed buffers, the C locale's `isspace`, `printf("%d")` decimal output,
 * `atoi`, and the space-separated command line a client builds.
 */
module CString {

  datatype Option<T> = None | Some(value: T)

  /** One octet of a request or reply; `char` is the C type the buffers hold. */
  type Byte = c: char | c as int < 256 witness '\0'

  type Str = seq<Byte>

  const NUL: Byte := '\0'

  /** Widths of the C integer types whose values appear in text. */
  type Int32 = x: int | -0x8000_0000 <= x < 0x8000_0000
  type Int64 = x: int | -0x8000_0000_0000_0000 <= x < 0x8000_0000_0000_0000

  /** `isspace` in the C locale: space, \t, \n, \v, \f, \r. */
  predicate IsSpace(c: Byte)
    ensures IsSpace(c) <==> c as int in {32, 9, 10, 11, 12, 13}
    ensures IsSpace(c) ==> c != NUL && !IsDigit(c) && c != '-' && c != '+'
  {
    c == ' ' || '\t' <= c <= '\r'
  }

  predicate IsDigit(c: Byte)
  {
    '0' <= c <= '9'
  }

  predicate AllDigits(s: Str)
  {
    forall i :: 0 <= i < |s| ==> IsDigit(s[i])
  }

  predicate NoSpace(s: Str)
  {
    forall i :: 0 <= i < |s| ==> !IsSpace(s[i])
  }

  predicate NoNul(s: Str)
  {
    forall i :: 0 <= i < |s| ==> s[i] != NUL
  }

  function DigitChar(d: nat): (c: Byte)
    requires d < 10
    ensures IsDigit(c) && c as int - '0' as int == d
  {
    (d + '0' as int) as char
  }

  function DigitValue(c: Byte): (d: nat)
    requires IsDigit(c)
    ensures d < 10 && DigitChar(d) == c
  {
    c as int - '0' as int
  }

  function Pow10(k: nat): (p: nat)
    ensures p >= 1
  {
    if k == 0 then 1 else 10 * Pow10(k - 1)
  }

  /** The decimal digits of `n`, most significant first, without leading zeros. */
  function Digits(n: nat): (s: Str)
    ensures |s| >= 1 && AllDigits(s)
    ensures s[0] == '0' ==> n == 0
  {
    if n < 10 then [DigitChar(n)]
    else
      var high := Digits(n / 10);
      assert (high + [DigitChar(n % 10)])[0] == high[0];
      high + [DigitChar(n % 10)]
  }

  /** The value of a string of decimal digits. */
  function DigitsValue(s: Str): nat
    requires AllDigits(s)
  {
    if s == [] then 0 else DigitsValue(s[..|s| - 1]) * 10 + DigitValue(s[|s| - 1])
  }

  /** `snprintf("%d", i)`: an optional minus sign followed by the digits. */
  function Dec(i: int): (s: Str)
    ensures |s| >= 1 && NoSpace(s) && NoNul(s)
    ensures i >= 0 <==> AllDigits(s)
  {
    if i < 0 then
      var s := ['-'] + Digits(-i);
      assert !IsDigit(s[0]);
      s
    else Digits(i)
  }

  /** Reads back a decimal integer as `Dec` writes it; None for anything else. */
  function ParseDec(s: Str): Option<int>
  {
    if |s| > 1 && s[0] == '-' && AllDigits(s[1..]) then Some(-(DigitsValue(s[1..]) as int))
    else if |s| > 0 && AllDigits(s) then Some(DigitsValue(s))
    else None
  }

  lemma {:induction false} DigitsRoundTrip(n: nat)
    ensures DigitsValue(Digits(n)) == n
  {
    if n >= 10 {
      var s := Digits(n);
      assert s[..|s| - 1] == Digits(n / 10);
      DigitsRoundTrip(n / 10);
    }
  }

  /** What `%d` prints, `ParseDec` reads back unchanged. */
  lemma DecRoundTrip(i: int)
    ensures ParseDec(Dec(i)) == Some(i)
  {
    var s := Dec(i);
    if i < 0 {
      var d := Digits(-i);
      assert s == ['-'] + d && s[1..] == d;
      DigitsRoundTrip(-i);
      assert ParseDec(s) == Some(-(DigitsValue(d) as int));
    } else {
      DigitsRoundTrip(i);
    }
  }

  lemma {:induction false} DigitsLength(n: nat, k: nat)
    requires k >= 1 && n < Pow10(k)
    ensures |Digits(n)| <= k
  {
    if n >= 10 {
      DigitsLength(n / 10, k - 1);
    }
  }

  lemma {:induction false} Pow10Sum(a: nat, b: nat)
    ensures Pow10(a + b) == Pow10(a) * Pow10(b)
  {
    if a > 0 {
      Pow10Sum(a - 1, b);
    }
  }

  /** A 32-bit `int` prints in at most 11 characters. */
  lemma DecLength32(i: Int32)
    ensures |Dec(i)| <= 11
  {
    var m: nat := if i < 0 then -(i as int) else i;
    assert Pow10(10) == 10000000000;
    DigitsLength(m, 10);
  }

  /** A 64-bit `int64_t` prints in at most 20 characters. */
  lemma DecLength64(i: Int64)
    ensures |Dec(i)| <= 20
  {
    var m: nat := if i < 0 then -(i as int) else i;
    Pow10Sum(10, 9);
    assert Pow10(10) == 10000000000 && Pow10(9) == 1000000000;
    DigitsLength(m, 19);
  }

  /** The longest prefix of `s` made of decimal digits. */
  function DigitRun(s: Str): (r: Str)
    ensures AllDigits(r) && r <= s
    ensures |r| < |s| ==> !IsDigit(s[|r|])
  {
    if s != [] && IsDigit(s[0]) then [s[0]] + DigitRun(s[1..]) else []
  }

  /**
   * C `atoi`/`atoll`: skip leading white space, an optional sign, then the
   * longest run of digits; no digits at all gives 0. Overflow is not modelled.
   */
  function Atoi(s: Str): (r: int)
    ensures AllDigits(s) ==> r == DigitsValue(s)
    ensures (forall i :: 0 <= i < |s| ==> IsSpace(s[i])) ==> r == 0
  {
    if s != [] && IsSpace(s[0]) then Atoi(s[1..])
    else
      assert AllDigits(s) ==> DigitRun(s) == s by {
        if AllDigits(s) { DigitRunAll(s); }
      }
      SignedDigits(s)
  }

  /** An optional sign followed by the longest run of digits. */
  function SignedDigits(t: Str): int
  {
    if |t| > 0 && t[0] == '-' then -(DigitsValue(DigitRun(t[1..])) as int)
    else if |t| > 0 && t[0] == '+' then DigitsValue(DigitRun(t[1..]))
    else DigitsValue(DigitRun(t))
  }

  lemma {:induction false} DigitRunAll(s: Str)
    requires AllDigits(s)
    ensures DigitRun(s) == s
  {
    if s != [] {
      DigitRunAll(s[1..]);
    }
  }

  /** `%d` never prints two integers the same way. */
  lemma DecInjective(a: int, b: int)
    requires Dec(a) == Dec(b)
    ensures a == b
  {
    DecRoundTrip(a);
    DecRoundTrip(b);
  }

  /** An integer written with `%d` is read back by `atoi`. */
  lemma AtoiDec(i: int)
    ensures Atoi(Dec(i)) == i
  {
    var s := Dec(i);
    assert !IsSpace(s[0]);
    if i < 0 {
      assert s[1..] == Digits(-i);
      DigitRunAll(s[1..]);
      DigitsRoundTrip(-i);
    } else {
      DigitRunAll(s);
      DigitsRoundTrip(i);
    }
  }

  /** The C string that starts at offset `a` of `m`: the bytes up to the next NUL. */
  function CStr(m: seq<Byte>, a: nat): (r: Str)
    decreases |m| - a
    ensures a + |r| <= |m| || (a >= |m| && r == [])
    ensures NoNul(r)
    ensures a <= |m| ==> r == m[a..a + |r|]
    ensures a + |r| < |m| ==> m[a + |r|] == NUL
  {
    if a >= |m| || m[a] == NUL then [] else [m[a]] + CStr(m, a + 1)
  }

  /** `snprintf` into a buffer of `size` bytes keeps at most `size - 1` characters. */
  function Snprintf(s: Str, size: nat): (r: Str)
    requires size >= 1
    ensures r <= s && |r| < size
    ensures |s| < size ==> r == s
  {
    if |s| < size then s else s[..size - 1]
  }

  /** Number of white-space bytes in `s`. */
  function CountSpaces(s: Str): nat
  {
    if s == [] then 0 else (if IsSpace(s[0]) then 1 else 0) + CountSpaces(s[1..])
  }

  /**
   * The tokens of a command line when every white-space byte is one
   * separator: adjacent separators give an empty token between them.
   */
  function Split(p: Str): (ts: seq<Str>)
    ensures |ts| == CountSpaces(p) + 1
    ensures forall i :: 0 <= i < |ts| ==> NoSpace(ts[i])
  {
    if p == [] then [[]]
    else if IsSpace(p[0]) then [[]] + Split(p[1..])
    else var t := Split(p[1..]); [[p[0]] + t[0]] + t[1..]
  }

  /** The command line a client writes for a list of tokens. */
  function Join(ts: seq<Str>): Str
    requires |ts| >= 1
  {
    if |ts| == 1 then ts[0] else ts[0] + [' '] + Join(ts[1..])
  }

  lemma {:induction false} SplitWord(w: Str, rest: Str)
    requires NoSpace(w)
    ensures Split(w + rest) == [w + Split(rest)[0]] + Split(rest)[1..]
  {
    var s := Split(rest);
    if w == [] {
      assert w + rest == rest && w + s[0] == s[0];
      assert [s[0]] + s[1..] == s;
    } else {
      assert (w + rest)[0] == w[0] && (w + rest)[1..] == w[1..] + rest;
      SplitWord(w[1..], rest);
      assert [w[0]] + (w[1..] + s[0]) == w + s[0];
    }
  }

  /** Splitting the line a client joined gives back its tokens. */
  lemma {:induction false} SplitJoin(ts: seq<Str>)
    requires |ts| >= 1
    requires forall i :: 0 <= i < |ts| ==> NoSpace(ts[i])
    ensures Split(Join(ts)) == ts
  {
    if |ts| == 1 {
      SplitWord(ts[0], []);
      assert ts[0] + [] == ts[0];
    } else {
      var rest := Join(ts[1..]);
      SplitJoin(ts[1..]);
      var sep: Str := [' '] + rest;
      assert Join(ts) == ts[0] + sep;
      SplitWord(ts[0], sep);
      assert sep[0] == ' ' && sep[1..] == rest;
      var s := Split(sep);
      assert s == [[]] + Split(rest);
      assert s[0] == [] && s[1..] == ts[1..];
      assert ts[0] + s[0] == ts[0];
      assert [ts[0]] + ts[1..] == ts;
    }
  }
}
