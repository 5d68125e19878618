/** Decimal notation of integers: printing, parsing, and strings joined by a separator. */
module Decimal {

  predicate IsDigit(c: char) {
    '0' <= c <= '9'
  }

  predicate AllDigits(s: string) {
    forall i :: 0 <= i < |s| ==> IsDigit(s[i])
  }

  function Digit(d: nat): (c: char)
    requires d < 10
    ensures IsDigit(c) && c as int - '0' as int == d
  {
    (d as char - 0 as char) + '0'
  }

  function DigitValue(c: char): (d: nat)
    requires IsDigit(c)
    ensures d < 10
  {
    c as int - '0' as int
  }

  // The shortest decimal form of a natural number.
  function Print(n: nat): (s: string)
    ensures s != [] && AllDigits(s)
    ensures s[0] == '0' ==> s == "0"
    ensures n == 0 <==> s == "0"
  {
    if n < 10 then [Digit(n)] else Print(n / 10) + [Digit(n % 10)]
  }

  // The number a string of digits denotes; leading zeros count for nothing.
  function Parse(s: string): nat
    requires AllDigits(s)
  {
    if s == [] then 0 else Parse(s[..|s| - 1]) * 10 + DigitValue(s[|s| - 1])
  }

  lemma {:induction false} ParsePrint(n: nat)
    ensures Parse(Print(n)) == n
  {
    if n < 10 {
      assert Parse([]) == 0;
      assert Print(n)[..0] == [];
    } else {
      ParsePrint(n / 10);
      assert Print(n)[..|Print(n)| - 1] == Print(n / 10);
    }
  }

  // A nonempty string of digits without a leading zero is what its number prints as.
  lemma {:induction false} PrintParse(s: string)
    requires s != [] && AllDigits(s) && (s[0] == '0' ==> s == "0")
    ensures Print(Parse(s)) == s
  {
    var n := |s| - 1;
    if n == 0 {
      assert s[..0] == [] && s == [s[0]];
      assert Parse(s) == DigitValue(s[0]);
    } else {
      PrintParse(s[..n]);
      assert s == s[..n] + [s[n]];
      assert Parse(s[..n]) > 0 by {
        assert s[..n][0] == s[0];
        assert s[..n] == "0" <==> Parse(s[..n]) == 0;
      }
      assert Parse(s) / 10 == Parse(s[..n]) && Parse(s) % 10 == DigitValue(s[n]);
    }
  }

  lemma PrintInjective(m: nat, n: nat)
    requires Print(m) == Print(n)
    ensures m == n
  {
    ParsePrint(m);
    ParsePrint(n);
  }

  function PrintInt(n: int): (s: string)
    ensures s != []
  {
    if n < 0 then "-" + Print(-n) else Print(n)
  }

  lemma PrintIntInjective(m: int, n: int)
    requires PrintInt(m) == PrintInt(n)
    ensures m == n
  {
    if m < 0 {
      assert PrintInt(m)[0] == '-' && PrintInt(m)[1..] == Print(-m);
      assert n < 0;
      assert PrintInt(n)[1..] == Print(-n);
      PrintInjective(-m, -n);
    } else {
      assert PrintInt(m)[0] != '-';
      PrintInjective(m, n);
    }
  }

  // The place of the first `c`, or the length.
  function FirstAt(s: string, c: char): (i: nat)
    ensures i <= |s|
  {
    if s == [] || s[0] == c then 0 else 1 + FirstAt(s[1..], c)
  }

  // The place of the last `c`, or the length.
  function LastAt(s: string, c: char): (i: nat)
    ensures i <= |s|
  {
    if s == [] then 0
    else if s[|s| - 1] == c then |s| - 1
    else
      var i := LastAt(s[..|s| - 1], c);
      if i == |s| - 1 then |s| else i
  }

  lemma {:induction false} FirstAtJoin(a: string, x: string, c: char)
    requires c !in a
    ensures FirstAt(a + [c] + x, c) == |a|
  {
    if a != [] {
      FirstAtJoin(a[1..], x, c);
      assert (a + [c] + x)[1..] == a[1..] + [c] + x;
    }
  }

  lemma {:induction false} LastAtJoin(a: string, x: string, c: char)
    requires c !in x
    ensures LastAt(a + [c] + x, c) == |a|
  {
    if x != [] {
      var n := |x| - 1;
      LastAtJoin(a, x[..n], c);
      assert (a + [c] + x)[..|a + [c] + x| - 1] == a + [c] + x[..n];
      assert (a + [c] + x)[|a| + 1 + n] == x[n];
    }
  }

  // The last separator splits a joined string in only one way.
  lemma JoinInjective(a: string, x: string, b: string, y: string, separator: char)
    requires a + [separator] + x == b + [separator] + y
    requires separator !in x && separator !in y
    ensures a == b && x == y
  {
    LastAtJoin(a, x, separator);
    LastAtJoin(b, y, separator);
    var s := a + [separator] + x;
    assert s[..|a|] == a && s[..|b|] == b;
    assert s[|a| + 1..] == x && s[|b| + 1..] == y;
  }
}
