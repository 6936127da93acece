// Strings as the gateway handles them: decimal digits, signed integers in base ten,
// trimming, cutting at a separator and splitting on one.
module Text {
  import opened Wrappers

  const INT64_MAX: int := 0x7FFF_FFFF_FFFF_FFFF
  const INT64_MIN: int := -0x8000_0000_0000_0000

  predicate InInt64(n: int) { INT64_MIN <= n <= INT64_MAX }

  // Two's-complement wrap-around of 64-bit arithmetic.
  function WrapInt64(n: int): (r: int)
    ensures InInt64(r)
    ensures InInt64(n) ==> r == n
    ensures (n - r) % 0x1_0000_0000_0000_0000 == 0
  {
    var m := n % 0x1_0000_0000_0000_0000;
    var r := if m <= INT64_MAX then m else m - 0x1_0000_0000_0000_0000;
    assert n == (n / 0x1_0000_0000_0000_0000) * 0x1_0000_0000_0000_0000 + m;
    assert n - r == (n / 0x1_0000_0000_0000_0000) * 0x1_0000_0000_0000_0000
         || n - r == (n / 0x1_0000_0000_0000_0000 + 1) * 0x1_0000_0000_0000_0000;
    r
  }

  // ---------- digits ----------

  predicate IsDigit(c: char) { '0' <= c <= '9' }

  predicate AllDigits(s: string) { forall i :: 0 <= i < |s| ==> IsDigit(s[i]) }

  function DigitValue(c: char): int
    requires IsDigit(c)
  {
    c as int - '0' as int
  }

  function DigitChar(d: int): (c: char)
    requires 0 <= d < 10
    ensures IsDigit(c) && DigitValue(c) == d
  {
    (d + '0' as int) as char
  }

  // The number a string of digits denotes; the empty string denotes zero.
  function Nat(s: string): nat
    requires AllDigits(s)
  {
    if s == "" then 0 else 10 * Nat(s[..|s| - 1]) + DigitValue(s[|s| - 1])
  }

  function Digits(n: nat): (s: string)
    ensures s != "" && AllDigits(s) && Nat(s) == n
    ensures |s| > 1 ==> s[0] != '0'
  {
    if n < 10 then
      var s := [DigitChar(n)];
      assert s[..|s| - 1] == "";
      s
    else
      var s := Digits(n / 10) + [DigitChar(n % 10)];
      assert s[..|s| - 1] == Digits(n / 10);
      s
  }

  function Pow10(n: nat): (p: nat)
    ensures p > 0
  {
    if n == 0 then 1 else 10 * Pow10(n - 1)
  }

  lemma {:induction false} Pow10Add(m: nat, n: nat)
    ensures Pow10(m + n) == Pow10(m) * Pow10(n)
  {
    if m > 0 {
      Pow10Add(m - 1, n);
    }
  }

  function Zeros(n: nat): (s: string)
    ensures |s| == n && AllDigits(s)
  {
    seq(n, i => '0')
  }

  lemma {:induction false} NatConcat(a: string, b: string)
    requires AllDigits(a) && AllDigits(b)
    ensures AllDigits(a + b)
    ensures Nat(a + b) == Nat(a) * Pow10(|b|) + Nat(b)
  {
    if b == "" {
      assert a + b == a;
    } else {
      var b' := b[..|b| - 1];
      NatConcat(a, b');
      assert (a + b)[..|a + b| - 1] == a + b';
      assert Pow10(|b|) == 10 * Pow10(|b'|);
      assert 10 * (Nat(a) * Pow10(|b'|)) == Nat(a) * Pow10(|b|);
    }
  }

  lemma {:induction false} NatZeros(n: nat)
    ensures Nat(Zeros(n)) == 0
  {
    if n > 0 {
      assert Zeros(n)[..n - 1] == Zeros(n - 1);
      NatZeros(n - 1);
    }
  }

  // ---------- signed integers ----------

  // What `%d` and big.Int.String print.
  function IntText(n: int): (s: string)
    ensures s != ""
    ensures n >= 0 ==> AllDigits(s)
    ensures n < 0 ==> s[0] == '-' && AllDigits(s[1..])
    ensures forall c :: c in s ==> c == '-' || IsDigit(c)
  {
    if n < 0 then "-" + Digits(-n) else Digits(n)
  }

  // big.Int.SetString(s, 10): one optional sign, then at least one digit and nothing else.
  function ScanInt(s: string): Option<int> {
    if s == "" then None
    else
      var signed := s[0] == '-' || s[0] == '+';
      var digits := if signed then s[1..] else s;
      if digits == "" || !AllDigits(digits) then None
      else
        var magnitude: int := Nat(digits);
        Some(if s[0] == '-' then -magnitude else magnitude)
  }

  // strconv.ParseInt(s, 10, 64): the same language, refused outside the int64 range.
  function ParseInt64(s: string): Option<int> {
    match ScanInt(s)
    case None => None
    case Some(n) => if InInt64(n) then Some(n) else None
  }

  lemma ScanPrinted(n: int)
    ensures ScanInt(IntText(n)) == Some(n)
  {
  }

  lemma IntTextInjective(m: int, n: int)
    requires IntText(m) == IntText(n)
    ensures m == n
  {
  }

  // ---------- separators ----------

  // The position of the first c, or the length when there is none.
  function IndexOf(s: string, c: char): (i: nat)
    ensures i <= |s|
    ensures i < |s| ==> s[i] == c
    ensures forall j :: 0 <= j < i ==> s[j] != c
    ensures i == |s| <==> c !in s
  {
    if s == "" || s[0] == c then 0 else
    var i := 1 + IndexOf(s[1..], c);
    assert forall j :: 1 <= j < i ==> s[j] == s[1..][j - 1];
    assert c in s <==> c in s[1..];
    i
  }

  // strings.Cut with a one-character separator: the text before and after the first one.
  function Cut(s: string, c: char): (r: Option<(string, string)>)
    ensures r.None? <==> c !in s
    ensures r.Some? ==> c !in r.value.0 && s == r.value.0 + [c] + r.value.1
  {
    var i := IndexOf(s, c);
    if i == |s| then None else Some((s[..i], s[i + 1..]))
  }

  // Where the first separator of a + [c] + b lies when a has none.
  lemma CutAt(a: string, c: char, b: string)
    requires c !in a
    ensures Cut(a + [c] + b, c) == Some((a, b))
  {
    var s := a + [c] + b;
    var i := IndexOf(s, c);
    assert s[|a|] == c;
    assert forall j :: 0 <= j < |a| ==> s[j] == a[j];
    assert s[..i] == a && s[i + 1..] == b;
  }

  // strings.Split with a one-character separator.
  function Split(s: string, c: char): (parts: seq<string>)
    ensures |parts| > 0
    ensures forall p :: p in parts ==> c !in p && forall x :: x in p ==> x in s
    ensures Join(parts, c) == s
    decreases |s|
  {
    var i := IndexOf(s, c);
    if i == |s| then [s]
    else
      var rest := Split(s[i + 1..], c);
      var parts := [s[..i]] + rest;
      assert parts[1..] == rest;
      assert s == s[..i] + [c] + s[i + 1..];
      parts
  }

  function Join(parts: seq<string>, c: char): string
    requires |parts| > 0
  {
    if |parts| == 1 then parts[0] else parts[0] + [c] + Join(parts[1..], c)
  }

  lemma SplitAt(a: string, c: char, b: string)
    requires c !in a
    ensures Split(a + [c] + b, c) == [a] + Split(b, c)
  {
    CutAt(a, c, b);
    var s := a + [c] + b;
    var i := IndexOf(s, c);
    assert s[..i] == a && s[i + 1..] == b;
  }

  lemma SplitNone(s: string, c: char)
    requires c !in s
    ensures Split(s, c) == [s]
  {
  }

  // Strip characters of a class from both ends.
  function TrimBy(space: char -> bool, s: string): (r: string)
    ensures r != "" ==> !space(r[0]) && !space(r[|r| - 1])
    ensures forall x :: x in r ==> x in s
    decreases |s|
  {
    if s == "" then s
    else if space(s[0]) then TrimBy(space, s[1..])
    else if space(s[|s| - 1]) then TrimBy(space, s[..|s| - 1])
    else s
  }

  // strings.TrimSpace: the characters with the Unicode White_Space property.
  predicate IsSpace(c: char) {
    '\t' <= c <= '\r' || c == ' ' || c == '\U{85}' || c == '\U{A0}' || c == '\U{1680}'
    || '\U{2000}' <= c <= '\U{200A}' || c == '\U{2028}' || c == '\U{2029}'
    || c == '\U{202F}' || c == '\U{205F}' || c == '\U{3000}'
  }

  // The code points of the Unicode Character Database, property White_Space.
  const WHITE_SPACE: string :=
    "\t\n\U{0B}\U{0C}\r \U{85}\U{A0}\U{1680}"
    + "\U{2000}\U{2001}\U{2002}\U{2003}\U{2004}\U{2005}\U{2006}\U{2007}\U{2008}\U{2009}\U{200A}"
    + "\U{2028}\U{2029}\U{202F}\U{205F}\U{3000}"

  lemma SpaceIff(c: char)
    ensures IsSpace(c) <==> c in WHITE_SPACE
  {
    assert |WHITE_SPACE| == 25;
    if '\t' <= c <= '\r' {
      assert WHITE_SPACE[c as int - 9] == c;
    } else if '\U{2000}' <= c <= '\U{200A}' {
      assert WHITE_SPACE[c as int - 0x2000 + 9] == c;
    }
    assert WHITE_SPACE[5] == ' ' && WHITE_SPACE[6] == '\U{85}' && WHITE_SPACE[7] == '\U{A0}';
    assert WHITE_SPACE[8] == '\U{1680}' && WHITE_SPACE[20] == '\U{2028}' && WHITE_SPACE[21] == '\U{2029}';
    assert WHITE_SPACE[22] == '\U{202F}' && WHITE_SPACE[23] == '\U{205F}' && WHITE_SPACE[24] == '\U{3000}';
  }

  function TrimSpace(s: string): string { TrimBy(IsSpace, s) }

  // Text whose ends are not spaces is left alone.
  lemma TrimKeeps(space: char -> bool, s: string)
    requires s != "" ==> !space(s[0]) && !space(s[|s| - 1])
    ensures TrimBy(space, s) == s
  {
  }

  ghost predicate All(space: char -> bool, s: string) { forall i :: 0 <= i < |s| ==> space(s[i]) }

  // Trimming takes away what is of the class at both ends and nothing else.
  lemma {:induction false} TrimTakesEnds(space: char -> bool, s: string) returns (i: nat, j: nat)
    ensures i <= j <= |s| && TrimBy(space, s) == s[i..j]
    ensures forall k :: 0 <= k < i || j <= k < |s| ==> space(s[k])
    decreases |s|
  {
    if s == "" || (!space(s[0]) && !space(s[|s| - 1])) {
      i, j := 0, |s|;
    } else if space(s[0]) {
      i, j := TrimTakesEnds(space, s[1..]);
      assert s[1..][i..j] == s[i + 1..j + 1];
      assert forall k :: 1 <= k < |s| ==> s[k] == s[1..][k - 1];
      i, j := i + 1, j + 1;
    } else {
      var n := |s| - 1;
      i, j := TrimTakesEnds(space, s[..n]);
      assert s[..n][i..j] == s[i..j];
      assert forall k :: 0 <= k < n ==> s[k] == s[..n][k];
    }
  }

  // So text in between that neither begins nor ends in the class is what is left.
  lemma {:induction false} TrimBetween(space: char -> bool, a: string, s: string, b: string)
    requires All(space, a) && All(space, b)
    requires s != "" ==> !space(s[0]) && !space(s[|s| - 1])
    ensures TrimBy(space, a + s + b) == s
    decreases |a| + |b|
  {
    var t := a + s + b;
    if a != "" {
      assert t[1..] == a[1..] + s + b;
      TrimBetween(space, a[1..], s, b);
    } else if b != "" {
      var b' := b[..|b| - 1];
      assert t[..|t| - 1] == a + s + b';
      TrimBetween(space, a, s, b');
      if s == "" {
        TrimAll(space, t);
      }
    } else {
      assert t == s;
      TrimKeeps(space, s);
    }
  }

  lemma {:induction false} TrimAll(space: char -> bool, s: string)
    requires All(space, s)
    ensures TrimBy(space, s) == ""
  {
    if s != "" {
      TrimAll(space, s[1..]);
    }
  }

  // Two trimming classes that agree on the characters of s trim it alike.
  lemma {:induction false} TrimAgrees(p: char -> bool, q: char -> bool, s: string)
    requires forall c :: c in s ==> p(c) == q(c)
    ensures TrimBy(p, s) == TrimBy(q, s)
    decreases |s|
  {
    if s != "" {
      assert s[0] in s && s[|s| - 1] in s;
      if p(s[0]) {
        TrimAgrees(p, q, s[1..]);
      } else if p(s[|s| - 1]) {
        TrimAgrees(p, q, s[..|s| - 1]);
      }
    }
  }
}
