/** Decimal text of integers, as `str()` prints them and `int()` reads them. */
module Decimal {
  import opened Common

  predicate IsDigit(c: char) {
    '0' <= c <= '9'
  }

  function Digit(d: nat): (c: char)
    requires d < 10
    ensures IsDigit(c) && c as int - '0' as int == d
  {
    '0' + d as char
  }

  function Print(n: nat): (s: string)
    ensures s != [] && forall c :: c in s ==> IsDigit(c)
  {
    if n < 10 then [Digit(n)] else Print(n / 10) + [Digit(n % 10)]
  }

  function PrintInt(i: int): string {
    if i < 0 then "-" + Print(-i) else Print(i)
  }

  /** Value of a string of digits, most significant first. */
  function Value(s: string): nat
    requires forall c :: c in s ==> IsDigit(c)
  {
    if s == [] then 0
    else
      assert IsDigit(s[|s| - 1]) by { assert s[|s| - 1] in s; }
      10 * Value(s[..|s| - 1]) + (s[|s| - 1] as int - '0' as int)
  }

  lemma {:induction false} ValueOfPrint(n: nat)
    ensures Value(Print(n)) == n
  {
    var s := Print(n);
    if n >= 10 {
      assert s[..|s| - 1] == Print(n / 10);
      ValueOfPrint(n / 10);
    }
  }

  lemma PrintIsInjective(m: nat, n: nat)
    requires Print(m) == Print(n)
    ensures m == n
  {
    ValueOfPrint(m);
    ValueOfPrint(n);
  }

  // ---------------------------------------------------------------- reading

  function TrimLeft(s: string): string {
    if s != [] && IsBlank(s[0]) then TrimLeft(s[1..]) else s
  }

  function TrimRight(s: string): string {
    if s != [] && IsBlank(s[|s| - 1]) then TrimRight(s[..|s| - 1]) else s
  }

  /** Digits with single underscores between them, as `int()` accepts; the underscores are dropped. */
  function Ungrouped(s: string): (r: Option<string>)
    ensures r.Some? ==> r.value != [] && forall c :: c in r.value ==> IsDigit(c)
  {
    if s == [] || !IsDigit(s[0]) then None
    else if |s| == 1 then Some(s)
    else
      var rest := Ungrouped(if s[1] == '_' then s[2..] else s[1..]);
      if rest.None? then None else Some([s[0]] + rest.value)
  }

  /** `int(s)` for a string, None where it raises ValueError. */
  function Read(s: string): Option<int> {
    var t := TrimRight(TrimLeft(s));
    var negative := t != [] && t[0] == '-';
    var digits := Ungrouped(if t != [] && (t[0] == '-' || t[0] == '+') then t[1..] else t);
    if digits.None? then None
    else
      var magnitude: int := Value(digits.value);
      Some(if negative then -magnitude else magnitude)
  }

  lemma {:induction false} PlainDigitsStay(s: string)
    requires s != [] && forall c :: c in s ==> IsDigit(c)
    ensures Ungrouped(s) == Some(s)
  {
    if |s| > 1 {
      assert s[1] in s;
      PlainDigitsStay(s[1..]);
      assert [s[0]] + s[1..] == s;
    }
  }

  lemma NothingToTrim(s: string)
    requires s != [] && !IsBlank(s[0]) && !IsBlank(s[|s| - 1])
    ensures TrimRight(TrimLeft(s)) == s
  {
  }

  /** Reading back what was printed. */
  lemma ReadOfPrint(i: int)
    ensures Read(PrintInt(i)) == Some(i)
  {
    hide Print;
    hide TrimLeft;
    hide TrimRight;
    hide Ungrouped;
    hide Value;
    var n: nat := if i < 0 then -i else i;
    var digits, s := Print(n), PrintInt(i);
    PrintedEnds(n);
    PlainDigitsStay(digits);
    ValueOfPrint(n);
    NothingToTrim(s);
    if i < 0 {
      assert s == ['-'] + digits && s[1..] == digits;
    }
  }

  lemma PrintedEnds(n: nat)
    ensures IsDigit(Print(n)[0]) && IsDigit(Print(n)[|Print(n)| - 1])
  {
  }
}
