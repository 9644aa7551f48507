/**
 * The few PHP string primitives the core relies on, written out so that their
 * edge cases (empty tokens, "0" being falsy, byte-wise ordering) are explicit.
 */
module PhpStrings {

  /** PHP truthiness of a string: "" and "0" are the falsy strings. */
  predicate Truthy(s: string) {
    s != "" && s != "0"
  }

  /** `strtolower` on ASCII letters (PHP 8.2+ is locale-insensitive). */
  function LowerChar(c: char): char {
    if 'A' <= c <= 'Z' then (c as int + 32) as char else c
  }

  function Lower(s: string): (r: string)
    ensures |r| == |s|
    ensures forall i :: 0 <= i < |s| ==> r[i] == LowerChar(s[i])
  {
    seq(|s|, i requires 0 <= i < |s| => LowerChar(s[i]))
  }

  /** Lower-casing twice is lower-casing once. */
  lemma LowerIdempotent(s: string)
    ensures Lower(Lower(s)) == Lower(s)
  {
    assert forall i :: 0 <= i < |s| ==> LowerChar(LowerChar(s[i])) == LowerChar(s[i]);
  }

  /** `substr($s, 0, $n)` for n >= 0: the first n characters, or all of s when shorter. */
  function Prefix(s: string, n: nat): (r: string)
    ensures |r| == if |s| < n then |s| else n
    ensures r <= s
  {
    if |s| <= n then s else s[..n]
  }

  /** PHP comparison `a <= b` of two non-numeric strings: byte-wise lexicographic order. */
  predicate StrLe(a: string, b: string)
    decreases |a|
  {
    a == [] || (b != [] && (a[0] < b[0] || (a[0] == b[0] && StrLe(a[1..], b[1..]))))
  }

  lemma {:induction false} StrLeReflexive(a: string)
    ensures StrLe(a, a)
    decreases |a|
  {
    if a != [] { StrLeReflexive(a[1..]); }
  }

  lemma {:induction false} StrLeTransitive(a: string, b: string, c: string)
    requires StrLe(a, b) && StrLe(b, c)
    ensures StrLe(a, c)
    decreases |a|
  {
    if a != [] && a[0] == b[0] && b[0] == c[0] {
      StrLeTransitive(a[1..], b[1..], c[1..]);
    }
  }

  /** `explode(' ', $s)`: split at every single space; empty tokens are kept. */
  function Explode(s: string): (parts: seq<string>)
    ensures |parts| >= 1
    decreases |s|
  {
    if s == [] then [""]
    else
      var rest := Explode(s[1..]);
      if s[0] == ' ' then [""] + rest
      else [[s[0]] + rest[0]] + rest[1..]
  }

  /** `implode(' ', $parts)`: join with single spaces; the empty list joins to "". */
  function Implode(parts: seq<string>): string
    decreases |parts|
  {
    if |parts| == 0 then ""
    else if |parts| == 1 then parts[0]
    else parts[0] + " " + Implode(parts[1..])
  }

  /** No token of `explode` contains the separator. */
  lemma {:induction false} ExplodeTokensHaveNoSpace(s: string)
    ensures forall i :: 0 <= i < |Explode(s)| ==> ' ' !in Explode(s)[i]
    decreases |s|
  {
    if s != [] {
      ExplodeTokensHaveNoSpace(s[1..]);
      var rest := Explode(s[1..]);
      if s[0] != ' ' {
        assert forall i :: 1 <= i < |Explode(s)| ==> Explode(s)[i] == rest[i];
        assert Explode(s)[0] == [s[0]] + rest[0];
      }
    }
  }

  /** `explode` yields more than one token exactly when there is a space to split at. */
  lemma {:induction false} ExplodeCount(s: string)
    ensures |Explode(s)| >= 2 <==> ' ' in s
    decreases |s|
  {
    if s != [] {
      ExplodeCount(s[1..]);
      assert ' ' in s <==> s[0] == ' ' || ' ' in s[1..];
    }
  }

  /** Joining the tokens back with spaces gives the original string. */
  lemma {:induction false} ImplodeExplode(s: string)
    ensures Implode(Explode(s)) == s
    decreases |s|
  {
    if s != [] {
      var c, tail := s[0], s[1..];
      ImplodeExplode(tail);
      var rest := Explode(tail);
      assert s == [c] + tail;
      if c == ' ' {
        assert ([""] + rest)[1..] == rest;
      } else {
        ImplodeGlue(c, rest);
      }
    }
  }

  /** Proof step of ImplodeExplode: gluing a character onto the first token. */
  lemma {:induction false} ImplodeGlue(c: char, rest: seq<string>)
    requires |rest| >= 1
    ensures Implode([[c] + rest[0]] + rest[1..]) == [c] + Implode(rest)
  {
    var head := [c] + rest[0];
    var parts := [head] + rest[1..];
    assert parts[0] == head;
    if |rest| > 1 {
      assert parts[1..] == rest[1..];
      var b := Implode(rest[1..]);
      assert Implode(parts) == head + " " + b;
      assert Implode(rest) == rest[0] + " " + b;
      assert ([c] + rest[0]) + (" " + b) == [c] + (rest[0] + (" " + b));
    }
  }

  function DigitChar(d: nat): char
    requires d < 10
  {
    "0123456789"[d]
  }

  /** Decimal rendering of a natural number (string interpolation of an int). */
  function NatToString(n: nat): (r: string)
    ensures |r| >= 1
    decreases n
  {
    if n < 10 then [DigitChar(n)] else NatToString(n / 10) + [DigitChar(n % 10)]
  }

  function IntToString(i: int): (r: string)
    ensures |r| >= 1
  {
    if i < 0 then "-" + NatToString(-i) else NatToString(i)
  }
}
