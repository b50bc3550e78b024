/** The bridge's integer printing, which fills a 20-byte buffer from the back. */
module Itoa {
  import opened Wrappers

  const MIN_INT64: int := -0x8000_0000_0000_0000
  const MAX_INT64: int := 0x7fff_ffff_ffff_ffff

  newtype int64 = x: int | -0x8000_0000_0000_0000 <= x <= 0x7fff_ffff_ffff_ffff

  /** Negation in 64 bits: the minimum is its own negative. */
  function Negated(n: int64): int64 {
    if n as int == MIN_INT64 then n else -n
  }

  function Digit(d: nat): char
    requires d < 10
  {
    '0' + d as char
  }

  /** The decimal digits of n, none for zero. */
  function Digits(n: nat): string {
    if n == 0 then "" else Digits(n / 10) + [Digit(n % 10)]
  }

  predicate IsDigit(c: char) {
    '0' <= c <= '9'
  }

  /** Reading digits, most significant first; None unless there is at least one and nothing else. */
  function ParseNat(s: string): Option<nat> {
    if s == "" || !IsDigit(s[|s| - 1]) then None
    else
      var d := (s[|s| - 1] - '0') as nat;
      if |s| == 1 then Some(d)
      else
        var rest := ParseNat(s[..|s| - 1]);
        if rest.None? then None else Some(10 * rest.value + d)
  }

  /** Reading an optional sign and digits. */
  function ParseInt(s: string): Option<int> {
    if s != "" && s[0] == '-' then
      var n := ParseNat(s[1..]);
      if n.None? then None else Some(-(n.value as int))
    else
      var n := ParseNat(s);
      if n.None? then None else Some(n.value)
  }

  lemma DigitRead(d: nat)
    requires d < 10
    ensures IsDigit(Digit(d)) && (Digit(d) - '0') as nat == d
  {
  }

  lemma ParseSnoc(s: string, front: string, c: char)
    requires s == front + [c] && IsDigit(c) && (front == "" || ParseNat(front).Some?)
    ensures ParseNat(s) == Some((c - '0') as nat + if front == "" then 0 else 10 * ParseNat(front).value)
  {
    assert s[..|s| - 1] == front && s[|s| - 1] == c;
  }

  /** Reading one more digit. */
  lemma ParseMore(front: string, d: nat)
    requires d < 10 && (front == "" || ParseNat(front).Some?)
    ensures ParseNat(front + [Digit(d)]) == Some(d + if front == "" then 0 else 10 * ParseNat(front).value)
  {
    DigitRead(d);
    ParseSnoc(front + [Digit(d)], front, Digit(d));
  }

  lemma {:induction false} ParseDigits(n: nat)
    requires 0 < n
    ensures Digits(n) != "" && Digits(n)[0] != '-' && ParseNat(Digits(n)) == Some(n)
  {
    var q, d := n / 10, n % 10;
    Decimal(n, q, d);
    if q > 0 {
      ParseDigits(q);
    }
    DigitRead(d);
    ParseMore(Digits(q), d);
  }

  lemma Decimal(n: nat, q: nat, d: nat)
    requires 0 < n && q == n / 10 && d == n % 10
    ensures q < n && d < 10 && n == 10 * q + d && Digits(n) == Digits(q) + [Digit(d)]
  {
  }

  lemma {:induction false} NoLeadingZero(n: nat)
    requires 0 < n
    ensures Digits(n) != "" && Digits(n)[0] != '0'
  {
    if n >= 10 {
      NoLeadingZero(n / 10);
    }
  }

  lemma ParsePositive(n: nat)
    requires 0 < n
    ensures ParseInt(Digits(n)) == Some(n)
  {
    ParseDigits(n);
  }

  lemma ParseNegative(n: nat)
    requires 0 < n
    ensures ParseInt("-" + Digits(n)) == Some(-(n as int))
  {
    ParseDigits(n);
    assert ("-" + Digits(n))[1..] == Digits(n);
  }

  lemma ParseBare()
    ensures ParseInt("0") == Some(0) && ParseInt("-") == None
  {
    assert ParseNat("0") == Some(0);
    assert "-"[1..] == "";
  }

  function Pow10(k: nat): nat {
    if k == 0 then 1 else 10 * Pow10(k - 1)
  }

  lemma Nineteen()
    ensures MAX_INT64 < Pow10(19)
  {
    assert Pow10(4) == 1_0000;
    assert Pow10(8) == 1_0000_0000;
    assert Pow10(12) == 1_0000_0000_0000;
    assert Pow10(16) == 1_0000_0000_0000_0000;
  }

  lemma DigitMoves(n: nat, tail: string)
    requires 0 < n
    ensures Digits(n) + tail == Digits(n / 10) + ([Digit(n % 10)] + tail)
  {
  }

  lemma PowerDrops(n: nat, k: nat)
    requires n < Pow10(k + 1)
    ensures n / 10 < Pow10(k)
  {
  }

  /** The digit loop, for a number that has room in the buffer. */
  method FillDigits(buf: array<char>, number: int64) returns (i: nat)
    requires buf.Length == 20
    modifies buf
    ensures 1 <= i <= 20
    ensures buf[i..] == if number > 0 then Digits(number as nat) else ""
  {
    var n := number;
    i := 20;
    Nineteen();
    while n > 0
      invariant 1 <= i <= 20 && n as int < Pow10(i - 1)
      invariant number <= 0 ==> n == number && i == 20
      invariant number > 0 ==> n >= 0 && Digits(number as nat) == Digits(n as nat) + buf[i..]
      decreases n as int
    {
      ghost var tail := buf[i..];
      i := i - 1;
      buf[i] := Digit((n % 10) as nat);
      assert buf[i..] == [Digit((n % 10) as nat)] + tail;
      DigitMoves(n as nat, tail);
      PowerDrops(n as nat, i - 1);
      n := n / 10;
    }
  }

  /** The text of a number: a sign, and the digits of what is left when it has been negated. */
  function Text(number: int64): string {
    if number == 0 then "0"
    else if number > 0 then Digits(number as nat)
    else if number as int == MIN_INT64 then "-"
    else "-" + Digits((-number) as nat)
  }

  lemma TextReadsBack(number: int64)
    ensures number as int != MIN_INT64 ==> ParseInt(Text(number)) == Some(number as int)
    ensures number as int == MIN_INT64 ==> Text(number) == "-" && ParseInt(Text(number)) == None
    ensures Text(number) != "" && (Text(number)[0] == '0' ==> Text(number) == "0")
    ensures number as int != MIN_INT64 && number < 0 ==> |Text(number)| > 1 && Text(number)[1] != '0'
  {
    ParseBare();
    if number > 0 {
      ParsePositive(number as nat);
      NoLeadingZero(number as nat);
    } else if number < 0 && number as int != MIN_INT64 {
      ParseNegative((-number) as nat);
      NoLeadingZero((-number) as nat);
    }
  }

  /** Fills the buffer and returns what is in use of it. */
  method Print(number: int64) returns (s: string)
    ensures s == Text(number)
  {
    if number == 0 {
      return "0";
    }
    var n := number;
    var neg := n < 0;
    if neg {
      n := Negated(n);
    }
    var buf := new char[20];
    var i := FillDigits(buf, n);
    ghost var digits := buf[i..];
    if neg {
      i := i - 1;
      buf[i] := '-';
      assert buf[i..] == "-" + digits;
    }
    s := buf[i..];
  }

  /** Printed integers read back as themselves, with the single exception of the minimum. */
  method Itoa(number: int64) returns (s: string)
    ensures number as int != MIN_INT64 ==> ParseInt(s) == Some(number as int)
    ensures number as int == MIN_INT64 ==> s == "-" && ParseInt(s) == None
    // and there is one way to print each
    ensures s != "" && (s[0] == '0' ==> s == "0")
    ensures number as int != MIN_INT64 && number < 0 ==> |s| > 1 && s[1] != '0'
  {
    s := Print(number);
    TextReadsBack(number);
  }
}
