/** The numerals of Python's `f"{n:x}"` and `str(n)`, and the separators the scripts join with. */
module Numerals {

  function DigitCharacter(d: nat): (c: char)
    requires d < 16
    ensures IsDigit(c) && DigitValue(c) == d
  {
    if d < 10 then '0' + d as char else 'a' + (d - 10) as char
  }

  predicate IsDigit(c: char) {
    '0' <= c <= '9' || 'a' <= c <= 'f'
  }

  /** The value of one digit; other characters stand for nothing and count 0. */
  function DigitValue(c: char): nat {
    if '0' <= c <= '9' then c as int - '0' as int
    else if 'a' <= c <= 'f' then c as int - 'a' as int + 10
    else 0
  }

  function Digits(n: nat, radix: nat): (s: string)
    requires 2 <= radix <= 16
    ensures s != []
    ensures forall i :: 0 <= i < |s| ==> IsDigit(s[i])
    decreases n
  {
    if n < radix then [DigitCharacter(n)] else Digits(n / radix, radix) + [DigitCharacter(n % radix)]
  }

  function Numeral(n: int, radix: nat): string
    requires 2 <= radix <= 16
  {
    if n < 0 then "-" + Digits(-n, radix) else Digits(n, radix)
  }

  /** Python's `int(s, radix)` on a numeral. */
  function Parse(s: string, radix: nat): nat {
    if s == [] then 0 else Parse(s[..|s| - 1], radix) * radix + DigitValue(s[|s| - 1])
  }

  lemma {:induction false} ParseAppend(s: string, c: char, radix: nat)
    ensures Parse(s + [c], radix) == Parse(s, radix) * radix + DigitValue(c)
  {
    assert (s + [c])[..|s|] == s;
  }

  lemma DivMod(n: nat, radix: nat)
    requires 2 <= radix <= n
    ensures (n / radix) * radix + n % radix == n
    ensures n / radix < n
  {
  }

  lemma {:induction false} ParseOneDigit(n: nat, radix: nat)
    requires 2 <= radix <= 16 && n < radix
    ensures Parse(Digits(n, radix), radix) == n
  {
    var s := [DigitCharacter(n)];
    ParseAppend([], s[0], radix);
    assert [] + s == s;
    assert Parse([], radix) == 0;
  }

  lemma {:induction false} ParseMoreDigits(n: nat, radix: nat, q: nat)
    requires 2 <= radix <= 16 && n >= radix && q == n / radix
    requires Parse(Digits(q, radix), radix) == q
    ensures Parse(Digits(n, radix), radix) == n
  {
    var c := DigitCharacter(n % radix);
    DivMod(n, radix);
    ParseAppend(Digits(q, radix), c, radix);
    assert Digits(n, radix) == Digits(q, radix) + [c];
  }

  /** Reading a printed number gives the number back. */
  lemma {:induction false} ParseDigits(n: nat, radix: nat)
    requires 2 <= radix <= 16
    ensures Parse(Digits(n, radix), radix) == n
    decreases n
  {
    if n < radix {
      ParseOneDigit(n, radix);
    } else {
      DivMod(n, radix);
      ParseDigits(n / radix, radix);
      ParseMoreDigits(n, radix, n / radix);
    }
  }

  lemma NumeralInjective(m: int, n: int, radix: nat)
    requires 2 <= radix <= 16 && Numeral(m, radix) == Numeral(n, radix)
    ensures m == n
  {
    var a, b := Digits(if m < 0 then -m else m, radix), Digits(if n < 0 then -n else n, radix);
    ParseDigits(if m < 0 then -m else m, radix);
    ParseDigits(if n < 0 then -n else n, radix);
    assert IsDigit(a[0]) && IsDigit(b[0]) && !IsDigit('-');
    assert m < 0 ==> Numeral(m, radix)[0] == '-' && Numeral(m, radix)[1..] == a;
    assert n < 0 ==> Numeral(n, radix)[0] == '-' && Numeral(n, radix)[1..] == b;
  }

  /** Two joined texts whose heads are free of the separator agree part by part. */
  lemma SplitAtSeparator(a: string, x: string, b: string, y: string, separator: char)
    requires separator !in a && separator !in b
    requires a + [separator] + x == b + [separator] + y
    ensures a == b && x == y
  {
    var s, t := a + [separator] + x, b + [separator] + y;
    assert s[|a|] == separator && t[|b|] == separator;
    if |a| < |b| || |b| < |a| {
      assert false;
    }
    assert a == s[..|a|] && b == t[..|b|];
    assert x == s[|a| + 1..] && y == t[|b| + 1..];
  }
}
