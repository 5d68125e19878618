/** Request bodies as Python dictionaries, and the string shapes that occur in them. */
module RequestBodies {
  import opened Wrappers
  import opened Decimal

  datatype Value = Num(n: int) | Flag(b: bool) | Fraction(r: real) | Text(s: string) | Other(id: nat)

  type Body = map<string, Value>

  function Amount(v: Value): Option<real> {
    match v
    case Num(n) => Some(n as real)
    case Flag(b) => Some(if b then 1.0 else 0.0)
    case Fraction(r) => Some(r)
    case _ => None
  }

  // Equality of values; numbers of different types may be equal.
  predicate Equal(a: Value, b: Value) {
    a == b || (Amount(a).Some? && Amount(a) == Amount(b))
  }

  predicate SameType(a: Value, b: Value) {
    (a.Num? && b.Num?) || (a.Flag? && b.Flag?) || (a.Fraction? && b.Fraction?) || (a.Text? && b.Text?) || (a.Other? && b.Other?)
  }

  predicate EqualBodies(a: Body, b: Body) {
    a.Keys == b.Keys && forall k :: k in b ==> Equal(a[k], b[k])
  }

  lemma SameTypesEqual(a: Body, b: Body)
    requires EqualBodies(a, b) && forall k :: k in b ==> SameType(a[k], b[k])
    ensures a == b
  {
  }

  // When values of different types are equal: numbers of the same amount, where a flag counts as
  // one or zero. Texts equal themselves only.
  lemma EqualExactly(n: int, b: bool, r: real, s: string, v: Value)
    ensures Equal(Num(n), v) <==> match v
                                  case Num(m) => m == n
                                  case Flag(c) => n == (if c then 1 else 0)
                                  case Fraction(x) => x == n as real
                                  case _ => false
    ensures Equal(Flag(b), v) <==> match v
                                   case Num(m) => m == (if b then 1 else 0)
                                   case Flag(c) => c == b
                                   case Fraction(x) => x == (if b then 1.0 else 0.0)
                                   case _ => false
    ensures Equal(Fraction(r), v) <==> match v
                                       case Num(m) => r == m as real
                                       case Flag(c) => r == (if c then 1.0 else 0.0)
                                       case Fraction(x) => x == r
                                       case _ => false
    ensures Equal(Text(s), v) <==> v == Text(s)
  {
  }

  function Kind(v: Value): nat {
    match v
    case Num(_) => 0
    case Flag(_) => 1
    case Fraction(_) => 2
    case Text(_) => 3
    case Other(_) => 4
  }

  lemma SameTypeExactly(a: Value, b: Value)
    ensures SameType(a, b) <==> Kind(a) == Kind(b)
  {
  }

  function TextAt(body: Body, key: string): Option<string> {
    if key in body && body[key].Text? then Some(body[key].s) else None
  }

  function NumAt(body: Body, key: string): Option<int> {
    if key in body && body[key].Num? then Some(body[key].n) else None
  }

  // ----- shapes

  predicate Alphanumeric(c: char) {
    'A' <= c <= 'Z' || 'a' <= c <= 'z' || IsDigit(c)
  }

  predicate NameChar(c: char) {
    Alphanumeric(c) || c == '.' || c == '-'
  }

  predicate IdChar(c: char) {
    NameChar(c) || c == '_'
  }

  predicate All(p: char -> bool, s: string) {
    forall i :: 0 <= i < |s| ==> p(s[i])
  }

  // A machine name: one alphanumeric character, then up to 62 more.
  predicate IsName(s: string) {
    1 <= |s| <= 63 && Alphanumeric(s[0]) && All(NameChar, s)
  }

  // An identifier of a storage or bridge: one alphanumeric character, then up to 63 more.
  predicate IsId(s: string) {
    1 <= |s| <= 64 && Alphanumeric(s[0]) && All(IdChar, s)
  }

  predicate IsHex(c: char) {
    'a' <= c <= 'f' || IsDigit(c)
  }

  predicate IsDigest(s: string) {
    |s| == 64 && All(IsHex, s)
  }

  // An operation identity: a prefix and a digest.
  predicate IsOperation(prefix: string, s: string) {
    |s| >= |prefix| && s[..|prefix|] == prefix && IsDigest(s[|prefix|..])
  }

  // Three to nine digits, the first not zero.
  predicate IsVmidText(s: string) {
    3 <= |s| <= 9 && AllDigits(s) && s[0] != '0'
  }

  // The shapes by character code: digits from 48, capitals from 65, small letters from 97, and
  // '-', '.', '_' are 45, 46, 95.
  predicate CodeOf(c: char, capitals: bool, small: int, extra: set<int>) {
    var n := c as int;
    48 <= n < 58 || (capitals && 65 <= n < 91) || 97 <= n < 97 + small || n in extra
  }

  lemma CodesExactly(c: char)
    ensures Alphanumeric(c) <==> CodeOf(c, true, 26, {})
    ensures NameChar(c) <==> CodeOf(c, true, 26, {45, 46})
    ensures IdChar(c) <==> CodeOf(c, true, 26, {45, 46, 95})
    ensures IsHex(c) <==> CodeOf(c, false, 6, {})
  {
  }

  lemma ShapesExactly(s: string)
    ensures IsName(s) <==> 0 < |s| < 64 && CodeOf(s[0], true, 26, {}) && forall i :: 0 <= i < |s| ==> CodeOf(s[i], true, 26, {45, 46})
    ensures IsId(s) <==> 0 < |s| < 65 && CodeOf(s[0], true, 26, {}) && forall i :: 0 <= i < |s| ==> CodeOf(s[i], true, 26, {45, 46, 95})
    ensures IsDigest(s) <==> |s| == 64 && forall i :: 0 <= i < |s| ==> CodeOf(s[i], false, 6, {})
  {
    forall c ensures Alphanumeric(c) <==> CodeOf(c, true, 26, {}) { CodesExactly(c); }
    forall c ensures NameChar(c) <==> CodeOf(c, true, 26, {45, 46}) { CodesExactly(c); }
    forall c ensures IdChar(c) <==> CodeOf(c, true, 26, {45, 46, 95}) { CodesExactly(c); }
    forall c ensures IsHex(c) <==> CodeOf(c, false, 6, {}) { CodesExactly(c); }
    hide CodeOf, Alphanumeric, NameChar, IdChar, IsHex;
  }

  lemma OperationExactly(prefix: string, s: string)
    ensures IsOperation(prefix, s) <==> exists digest :: IsDigest(digest) && s == prefix + digest
  {
    hide IsDigest;
    if IsOperation(prefix, s) { assert s == prefix + s[|prefix|..]; }
    if digest :| IsDigest(digest) && s == prefix + digest {
      assert s[..|prefix|] == prefix && s[|prefix|..] == digest;
    }
  }

  // What stands between a prefix and a suffix.
  function Between(s: string, prefix: string, suffix: string): (r: Option<string>)
    ensures r.Some? ==> s == prefix + r.value + suffix
  {
    if |s| >= |prefix| + |suffix| && s[..|prefix|] == prefix && s[|s| - |suffix|..] == suffix
    then
      assert s == prefix + s[|prefix|..|s| - |suffix|] + suffix;
      Some(s[|prefix|..|s| - |suffix|])
    else None
  }

  lemma BetweenJoin(prefix: string, middle: string, suffix: string)
    ensures Between(prefix + middle + suffix, prefix, suffix) == Some(middle)
  {
    var s := prefix + middle + suffix;
    assert s[..|prefix|] == prefix && s[|s| - |suffix|..] == suffix && s[|prefix|..|s| - |suffix|] == middle;
  }

  // Cuts a string before the first `prefix[0]`, then takes prefix and suffix off the rest.
  function Cut(s: string, prefix: string, suffix: string): (r: Option<(string, string)>)
    requires prefix != []
    ensures r.Some? ==> s == r.value.0 + (prefix + r.value.1 + suffix) && prefix[0] !in r.value.0
  {
    var i := FirstAt(s, prefix[0]);
    FirstAtBefore(s, prefix[0]);
    var middle := Between(s[i..], prefix, suffix);
    if middle.None? then None
    else
      assert s == s[..i] + s[i..];
      Some((s[..i], middle.value))
  }

  lemma {:induction false} FirstAtBefore(s: string, c: char)
    ensures c !in s[..FirstAt(s, c)]
    ensures FirstAt(s, c) < |s| ==> s[FirstAt(s, c)] == c
  {
    if s != [] && s[0] != c {
      FirstAtBefore(s[1..], c);
      assert s[..FirstAt(s, c)] == [s[0]] + s[1..][..FirstAt(s[1..], c)];
    }
  }

  lemma CutJoin(head: string, prefix: string, middle: string, suffix: string)
    requires prefix != [] && prefix[0] !in head
    ensures Cut(head + (prefix + middle + suffix), prefix, suffix) == Some((head, middle))
  {
    var rest := prefix + middle + suffix;
    var s := head + rest;
    assert s == head + [prefix[0]] + rest[1..];
    FirstAtJoin(head, rest[1..], prefix[0]);
    assert s[..|head|] == head && s[|head|..] == rest;
    BetweenJoin(prefix, middle, suffix);
  }

  // Splits a string at the first `c`.
  function SplitAt(s: string, c: char): (r: Option<(string, string)>)
    ensures r.Some? ==> s == r.value.0 + [c] + r.value.1 && c !in r.value.0
  {
    var i := FirstAt(s, c);
    FirstAtBefore(s, c);
    if i == |s| then None
    else
      assert s == s[..i] + [s[i]] + s[i + 1..];
      Some((s[..i], s[i + 1..]))
  }

  lemma SplitAtJoin(a: string, c: char, b: string)
    requires c !in a
    ensures SplitAt(a + [c] + b, c) == Some((a, b))
  {
    FirstAtJoin(a, b, c);
    var s := a + [c] + b;
    assert s[..|a|] == a && s[|a| + 1..] == b;
  }

  // ----- machine numbers

  function Pow10(k: nat): nat {
    if k == 0 then 1 else 10 * Pow10(k - 1)
  }

  lemma {:induction false} PrintLength(n: nat, k: nat)
    requires k > 0
    ensures |Print(n)| <= k <==> n < Pow10(k)
  {
    if k == 1 {
      assert Pow10(1) == 10 * Pow10(0);
    } else if n >= 10 {
      PrintLength(n / 10, k - 1);
    } else {
      PowGrows(k);
    }
  }

  lemma {:induction false} PowGrows(k: nat)
    requires k > 0
    ensures Pow10(k) >= 10
  {
    if k > 1 { PowGrows(k - 1); }
  }

  // The numbers whose decimal form is accepted.
  lemma VmidTextOf(n: nat)
    ensures IsVmidText(Print(n)) <==> 100 <= n <= 999999999
  {
    PrintLength(n, 2);
    PrintLength(n, 9);
    assert Pow10(2) == 100;
    assert Pow10(4) == 10000 && Pow10(6) == 1000000 && Pow10(8) == 100000000 && Pow10(9) == 1000000000;
  }

  lemma VmidTextParses(s: string)
    requires IsVmidText(s)
    ensures Print(Parse(s)) == s && 100 <= Parse(s) <= 999999999
  {
    PrintParse(s);
    VmidTextOf(Parse(s));
  }
}
