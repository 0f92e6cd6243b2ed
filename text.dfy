/** String helpers shared by the model: Python's `in` on strings, ASCII
    lower-casing, and `str()` of an integer. */
module Text {

  /** Python's `p in s` for strings: `p` occurs in `s` at some offset. */
  predicate Contains(s: string, p: string)
    decreases |s|
  {
    p <= s || (|s| > 0 && Contains(s[1..], p))
  }

  /** An occurrence at offset `i` is enough to establish `Contains`. */
  lemma {:induction false} ContainsAt(s: string, p: string, i: nat)
    requires i + |p| <= |s| && s[i..i + |p|] == p
    ensures Contains(s, p)
    decreases i
  {
    if i == 0 {
      assert p <= s;
    } else {
      assert s[1..][i - 1..i - 1 + |p|] == s[i..i + |p|];
      ContainsAt(s[1..], p, i - 1);
    }
  }

  /** `Contains` finds an offset exactly when there is one. */
  lemma {:induction false} ContainsWitness(s: string, p: string) returns (i: nat)
    requires Contains(s, p)
    ensures i + |p| <= |s| && s[i..i + |p|] == p
    decreases |s|
  {
    if p <= s {
      i := 0;
    } else {
      var j := ContainsWitness(s[1..], p);
      assert s[1..][j..j + |p|] == s[j + 1..j + 1 + |p|];
      i := j + 1;
    }
  }

  /** An occurrence in a part is an occurrence in the whole. */
  lemma ContainsConcat(a: string, b: string, p: string)
    ensures Contains(a, p) ==> Contains(a + b, p)
    ensures Contains(b, p) ==> Contains(a + b, p)
  {
    if Contains(a, p) {
      var i := ContainsWitness(a, p);
      assert (a + b)[i..i + |p|] == a[i..i + |p|];
      ContainsAt(a + b, p, i);
    }
    if Contains(b, p) {
      var i := ContainsWitness(b, p);
      assert (a + b)[|a| + i..|a| + i + |p|] == b[i..i + |p|];
      ContainsAt(a + b, p, |a| + i);
    }
  }

  /** Index of the first character of `s` that lies in `cs`, or `|s|`. */
  function FirstOf(s: string, cs: set<char>): (k: nat)
    ensures k <= |s|
    ensures k < |s| ==> s[k] in cs
    ensures forall j :: 0 <= j < k ==> s[j] !in cs
  {
    if s == [] then 0 else if s[0] in cs then 0 else 1 + FirstOf(s[1..], cs)
  }

  /** `FirstOf` on a concatenation looks into the second part only when the
      first part has no match. */
  lemma FirstOfConcat(a: string, b: string, cs: set<char>)
    ensures FirstOf(a + b, cs) == if FirstOf(a, cs) < |a| then FirstOf(a, cs) else |a| + FirstOf(b, cs)
  {
    var k := FirstOf(a + b, cs);
    var ka := FirstOf(a, cs);
    if ka < |a| {
      assert (a + b)[ka] == a[ka];
    } else {
      var kb := FirstOf(b, cs);
      if kb < |b| { assert (a + b)[|a| + kb] == b[kb]; }
      assert forall j :: |a| <= j < |a| + kb ==> (a + b)[j] == b[j - |a|];
    }
  }

  /** `FirstOf` is determined by the first match and the absence of earlier ones. */
  lemma FirstOfAt(s: string, cs: set<char>, k: nat)
    requires k <= |s|
    requires k < |s| ==> s[k] in cs
    requires forall j :: 0 <= j < k ==> s[j] !in cs
    ensures FirstOf(s, cs) == k
  {
  }

  predicate IsAsciiUpper(c: char) { 'A' <= c <= 'Z' }

  predicate IsAsciiLetter(c: char) { 'A' <= c <= 'Z' || 'a' <= c <= 'z' }

  predicate IsAsciiDigit(c: char) { '0' <= c <= '9' }

  function LowerChar(c: char): (r: char)
    ensures IsAsciiUpper(c) ==> r != c && r as int == c as int + 32
    ensures !IsAsciiUpper(c) ==> r == c
    ensures !IsAsciiUpper(r)
  {
    if IsAsciiUpper(c) then (c as int + 32) as char else c
  }

  /** `str.lower()` restricted to the ASCII letters: every character other
      than `A`..`Z` is kept. */
  function Lower(s: string): (r: string)
    ensures |r| == |s|
    ensures forall i :: 0 <= i < |s| ==> r[i] == LowerChar(s[i])
  {
    seq(|s|, i requires 0 <= i < |s| => LowerChar(s[i]))
  }

  /** Lower-casing twice is lower-casing once. */
  lemma LowerIdempotent(s: string)
    ensures Lower(Lower(s)) == Lower(s)
  {
  }

  lemma LowerConcat(a: string, b: string)
    ensures Lower(a + b) == Lower(a) + Lower(b)
  {
  }

  /** A string made only of characters that `Lower` keeps is its own lower
      case; all literals the program compares against are of this kind. */
  lemma LowerOfLower(s: string)
    requires forall i :: 0 <= i < |s| ==> !IsAsciiUpper(s[i])
    ensures Lower(s) == s
  {
  }

  function DigitChar(d: nat): (c: char)
    requires d < 10
    ensures IsAsciiDigit(c)
  {
    ('0' as int + d) as char
  }

  /** Decimal digits of a natural number, as `str(n)` writes them. */
  function NatToString(n: nat): (r: string)
    ensures |r| > 0
    ensures forall i :: 0 <= i < |r| ==> IsAsciiDigit(r[i])
    decreases n
  {
    if n < 10 then [DigitChar(n)] else NatToString(n / 10) + [DigitChar(n % 10)]
  }

  /** Python's `str(n)` for an `int`. */
  function IntToString(n: int): (r: string)
    ensures |r| > 0
    ensures n >= 0 ==> r == NatToString(n)
    ensures n < 0 ==> r == "-" + NatToString(-n)
  {
    if n < 0 then "-" + NatToString(-n) else NatToString(n)
  }
}
