/** String operations the app borrows from Foundation, written out on `seq<char>`:
    lower-casing, joining, substring search, ordering, and the `%d`-style
    decimal rendering used by `String(format:)`. */
module Text {

  // ---------------------------------------------------------------------------
  // Lower-casing (ASCII letters only; every other character is left alone)
  // ---------------------------------------------------------------------------

  function LowerChar(c: char): (d: char)
    ensures 'A' <= c <= 'Z' ==> 'a' <= d <= 'z'
    ensures 'A' <= c <= 'Z' ==> d as int == c as int + 32
    ensures !('A' <= c <= 'Z') ==> d == c
  {
    if 'A' <= c <= 'Z' then (c as int + 32) as char else c
  }

  function Lower(s: string): (r: string)
    ensures |r| == |s|
    ensures forall i :: 0 <= i < |s| ==> r[i] == LowerChar(s[i])
  {
    seq(|s|, i requires 0 <= i < |s| => LowerChar(s[i]))
  }

  lemma LowerIdempotent(s: string)
    ensures Lower(Lower(s)) == Lower(s)
  {
  }

  // ---------------------------------------------------------------------------
  // Joining with a separator
  // ---------------------------------------------------------------------------

  /** `parts.joined(separator: sep)`. */
  function Join(parts: seq<string>, sep: string): (r: string)
    ensures |parts| == 1 ==> r == parts[0]
  {
    if |parts| == 0 then ""
    else if |parts| == 1 then parts[0]
    else parts[0] + sep + Join(parts[1..], sep)
  }

  // ---------------------------------------------------------------------------
  // Substring search
  // ---------------------------------------------------------------------------

  /** `q` occurs in `text` starting at position `i`. */
  predicate OccursAt(text: string, q: string, i: int) {
    0 <= i && i + |q| <= |text| && text[i..i + |q|] == q
  }

  /** `text` contains `q` as a contiguous run of characters. */
  predicate Contains(text: string, q: string) {
    exists i | 0 <= i <= |text| :: OccursAt(text, q, i)
  }

  lemma ContainsInMiddle(a: string, b: string, c: string)
    ensures Contains(a + b + c, b)
  {
    var t := a + b + c;
    assert t[|a|..|a| + |b|] == b;
    assert OccursAt(t, b, |a|);
  }

  lemma ContainsSelf(s: string)
    ensures Contains(s, s)
  {
    assert s[0..|s|] == s;
    assert OccursAt(s, s, 0);
  }

  /** A run inside a run of `text` is a run of `text`. */
  lemma ContainsTransitive(text: string, mid: string, q: string)
    requires Contains(text, mid) && Contains(mid, q)
    ensures Contains(text, q)
  {
    var i :| 0 <= i <= |text| && OccursAt(text, mid, i);
    var j :| 0 <= j <= |mid| && OccursAt(mid, q, j);
    forall k | 0 <= k < |q| ensures text[i + j + k] == q[k] {
      assert text[i + j + k] == text[i..i + |mid|][j + k] == mid[j + k];
      assert mid[j + k] == mid[j..j + |q|][k];
    }
    assert text[i + j..i + j + |q|] == q;
    assert OccursAt(text, q, i + j);
  }

  /** Every part of a join is found in it. */
  lemma {:induction false} JoinContainsPart(parts: seq<string>, sep: string, k: nat)
    requires k < |parts|
    ensures Contains(Join(parts, sep), parts[k])
  {
    if |parts| == 1 {
      ContainsSelf(parts[0]);
    } else if k == 0 {
      ContainsInMiddle("", parts[0], sep + Join(parts[1..], sep));
      assert "" + parts[0] + (sep + Join(parts[1..], sep)) == Join(parts, sep);
    } else {
      JoinContainsPart(parts[1..], sep, k - 1);
      var rest := Join(parts[1..], sep);
      ContainsInMiddle(parts[0] + sep, rest, "");
      assert parts[0] + sep + rest + "" == Join(parts, sep);
      ContainsTransitive(Join(parts, sep), rest, parts[k]);
    }
  }

  /** Lower-casing both sides keeps a match. */
  lemma ContainsLower(text: string, q: string)
    requires Contains(text, q)
    ensures Contains(Lower(text), Lower(q))
  {
    var i :| 0 <= i <= |text| && OccursAt(text, q, i);
    assert Lower(text)[i..i + |q|] == Lower(q);
    assert OccursAt(Lower(text), Lower(q), i);
  }

  // ---------------------------------------------------------------------------
  // Ordering: Swift's `<` on strings, lexicographic on characters
  // ---------------------------------------------------------------------------

  predicate Less(a: string, b: string)
    decreases |a|
  {
    if |a| == 0 then |b| > 0
    else if |b| == 0 then false
    else if a[0] < b[0] then true
    else if a[0] == b[0] then Less(a[1..], b[1..])
    else false
  }

  lemma {:induction false} LessIrreflexive(a: string)
    ensures !Less(a, a)
    decreases |a|
  {
    if |a| > 0 {
      LessIrreflexive(a[1..]);
    }
  }

  lemma {:induction false} LessTransitive(a: string, b: string, c: string)
    requires Less(a, b) && Less(b, c)
    ensures Less(a, c)
    decreases |a|
  {
    if |a| > 0 && a[0] == b[0] && b[0] == c[0] {
      LessTransitive(a[1..], b[1..], c[1..]);
    }
  }

  /** Two different strings are always ordered one way or the other. */
  lemma {:induction false} LessTotal(a: string, b: string)
    requires a != b
    ensures Less(a, b) || Less(b, a)
    decreases |a|
  {
    if |a| > 0 && |b| > 0 && a[0] == b[0] {
      assert a == [a[0]] + a[1..] && b == [b[0]] + b[1..];
      LessTotal(a[1..], b[1..]);
    }
  }

  // ---------------------------------------------------------------------------
  // Prefixes
  // ---------------------------------------------------------------------------

  /** `s.hasPrefix(p)`. */
  predicate HasPrefix(s: string, p: string) {
    |p| <= |s| && s[..|p|] == p
  }

  // ---------------------------------------------------------------------------
  // Decimal rendering: `%d`, `%+d` and `%02d`
  // ---------------------------------------------------------------------------

  function DigitChar(d: nat): (c: char)
    requires d < 10
    ensures '0' <= c <= '9'
  {
    ('0' as int + d) as char
  }

  function DigitValue(c: char): (d: nat)
    requires '0' <= c <= '9'
    ensures d < 10 && DigitChar(d) == c
  {
    c as int - '0' as int
  }

  predicate AllDigits(s: string) {
    forall i :: 0 <= i < |s| ==> '0' <= s[i] <= '9'
  }

  /** The shortest decimal numeral of `n`. */
  function NatToString(n: nat): (s: string)
    ensures |s| >= 1 && AllDigits(s)
    ensures |s| > 1 ==> s[0] != '0'
    ensures n < 10 ==> |s| == 1
    ensures 10 <= n < 100 ==> |s| == 2
  {
    if n < 10 then [DigitChar(n)] else NatToString(n / 10) + [DigitChar(n % 10)]
  }

  /** The value of a numeral; the inverse of NatToString. */
  function ParseNat(s: string): (n: nat)
    requires AllDigits(s)
  {
    if |s| == 0 then 0 else ParseNat(s[..|s| - 1]) * 10 + DigitValue(s[|s| - 1])
  }

  lemma {:induction false} ParseNatToString(n: nat)
    ensures ParseNat(NatToString(n)) == n
  {
    var s := NatToString(n);
    if n >= 10 {
      ParseNatToString(n / 10);
      assert s[..|s| - 1] == NatToString(n / 10);
    }
  }

  /** `%+d`: an explicit sign, `+` for zero and above. */
  function SignedToString(n: int): (s: string)
    ensures |s| >= 2 && (s[0] == '-' <==> n < 0) && (s[0] == '+' <==> n >= 0)
  {
    (if n < 0 then "-" else "+") + NatToString(if n < 0 then -n else n)
  }

  /** Zero renders as "0", and as "+0" with an explicit sign. */
  lemma ZeroNumerals()
    ensures NatToString(0) == "0" && SignedToString(0) == "+0"
  {
    assert DigitChar(0) == '0';
    assert NatToString(0) == [DigitChar(0)];
    assert SignedToString(0) == "+" + NatToString(0);
  }

  /** Reads back a `%+d` rendering. */
  function ParseSigned(s: string): (n: int)
    requires |s| >= 1 && AllDigits(s[1..])
  {
    if s[0] == '-' then 0 - ParseNat(s[1..]) else ParseNat(s[1..])
  }

  lemma SignedRoundTrip(n: int)
    ensures ParseSigned(SignedToString(n)) == n
  {
    var s := SignedToString(n);
    assert s[1..] == NatToString(if n < 0 then -n else n);
    ParseNatToString(if n < 0 then -n else n);
  }

  /** `%02d`: at least two digits, padded with a leading zero. */
  function Pad2(n: nat): (s: string)
    ensures |s| >= 2 && AllDigits(s)
    ensures n < 100 ==> |s| == 2
  {
    if n < 10 then "0" + NatToString(n) else NatToString(n)
  }

  lemma Pad2RoundTrip(n: nat)
    ensures ParseNat(Pad2(n)) == n
  {
    ParseNatToString(n);
    if n < 10 {
      var s := Pad2(n);
      assert s[..|s| - 1] == "0";
      assert ParseNat(s[..1]) == ParseNat(s[..0]) * 10 + DigitValue(s[0]);
    }
  }
}
