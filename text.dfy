/**
 * The JavaScript string built-ins the page relies on: the `\s` character
 * class and `String.prototype.trim`, the `\d` / `[0-9]` digit class, and
 * `replace(/\s/g, '')` / `replace(/\D/g, '')`.
 */
module Text {

  /**
   * ECMAScript WhiteSpace and LineTerminator code points. This one set is
   * what the regular-expression class `\s` matches and what `trim()` removes.
   */
  predicate IsSpace(c: char) {
    var n := c as int;
    n == 0x09 || n == 0x0A || n == 0x0B || n == 0x0C || n == 0x0D || n == 0x20
    || n == 0xA0 || n == 0x1680 || (0x2000 <= n <= 0x200A)
    || n == 0x2028 || n == 0x2029 || n == 0x202F || n == 0x205F
    || n == 0x3000 || n == 0xFEFF
  }

  /** `\d` and `[0-9]`: ASCII decimal digits only. */
  predicate IsDigit(c: char) {
    '0' <= c <= '9'
  }

  predicate AllDigits(s: string) {
    forall k :: 0 <= k < |s| ==> IsDigit(s[k])
  }

  predicate NoSpace(s: string) {
    forall k :: 0 <= k < |s| ==> !IsSpace(s[k])
  }

  lemma DigitIsNotSpace(c: char)
    requires IsDigit(c)
    ensures !IsSpace(c)
  {
  }

  predicate AllSpace(s: string) {
    forall k :: 0 <= k < |s| ==> IsSpace(s[k])
  }

  /** The number of white-space characters `s` starts with. */
  function LeadingSpaces(s: string): (n: nat)
    ensures n <= |s|
    ensures forall k :: 0 <= k < n ==> IsSpace(s[k])
    ensures n < |s| ==> !IsSpace(s[n])
  {
    if |s| > 0 && IsSpace(s[0]) then 1 + LeadingSpaces(s[1..]) else 0
  }

  /** The number of white-space characters `s` ends with. */
  function TrailingSpaces(s: string): (n: nat)
    ensures n <= |s|
    ensures forall k :: |s| - n <= k < |s| ==> IsSpace(s[k])
    ensures n < |s| ==> !IsSpace(s[|s| - n - 1])
  {
    if |s| > 0 && IsSpace(s[|s| - 1]) then 1 + TrailingSpaces(s[..|s| - 1]) else 0
  }

  /** `s` is `r` with only white space before it (`i` characters) and after it. */
  predicate Pads(s: string, i: nat, r: string) {
    i + |r| <= |s| && s[i..i + |r|] == r && AllSpace(s[..i]) && AllSpace(s[i + |r|..])
  }

  /**
   * `trim()`: the part of `s` between its leading and its trailing white
   * space. Everything cut off is white space, and what is kept neither
   * starts nor ends with white space.
   */
  function Trim(s: string): (r: string)
    ensures |r| <= |s|
    ensures exists i :: Pads(s, i, r)
    ensures r != [] ==> !IsSpace(r[0]) && !IsSpace(r[|r| - 1])
  {
    var a := LeadingSpaces(s);
    var b := if a == |s| then 0 else TrailingSpaces(s[a..]);
    TrimPads(s, a, |s| - b);
    s[a..|s| - b]
  }

  lemma TrimPads(s: string, a: nat, e: nat)
    requires a <= e <= |s|
    requires forall k :: 0 <= k < a ==> IsSpace(s[k])
    requires forall k :: e <= k < |s| ==> IsSpace(s[k])
    ensures Pads(s, a, s[a..e])
  {
    var head, tail := s[..a], s[e..];
    forall k | 0 <= k < |head| ensures IsSpace(head[k]) {
      assert head[k] == s[k];
    }
    forall k | 0 <= k < |tail| ensures IsSpace(tail[k]) {
      assert tail[k] == s[e + k];
    }
  }

  /** A string that neither starts nor ends with white space is its own trim. */
  lemma TrimOfTrimmed(s: string)
    requires s != [] ==> !IsSpace(s[0]) && !IsSpace(s[|s| - 1])
    ensures Trim(s) == s
  {
  }

  /** Trimming twice is trimming once. */
  lemma TrimIdempotent(s: string)
    ensures Trim(Trim(s)) == Trim(s)
  {
    TrimOfTrimmed(Trim(s));
  }

  /** A run of digits has no white space to trim. */
  lemma TrimOfDigits(s: string)
    requires AllDigits(s)
    ensures Trim(s) == s
  {
    if s != [] {
      DigitIsNotSpace(s[0]);
      DigitIsNotSpace(s[|s| - 1]);
    }
    TrimOfTrimmed(s);
  }

  /** `replace(/\s/g, '')`: every white-space character deleted. */
  function RemoveSpaces(s: string): (r: string)
    ensures NoSpace(r) && |r| <= |s|
  {
    if s == [] then [] else (if IsSpace(s[0]) then [] else [s[0]]) + RemoveSpaces(s[1..])
  }

  /** `replace(/\D/g, '')`: every character that is not a digit deleted. */
  function DigitsOf(s: string): (r: string)
    ensures AllDigits(r) && |r| <= |s|
  {
    if s == [] then [] else (if IsDigit(s[0]) then [s[0]] else []) + DigitsOf(s[1..])
  }

  lemma {:induction false} RemoveSpacesConcat(a: string, b: string)
    ensures RemoveSpaces(a + b) == RemoveSpaces(a) + RemoveSpaces(b)
  {
    if a != [] {
      assert (a + b)[1..] == a[1..] + b;
      RemoveSpacesConcat(a[1..], b);
    } else {
      assert a + b == b;
    }
  }

  lemma {:induction false} DigitsOfConcat(a: string, b: string)
    ensures DigitsOf(a + b) == DigitsOf(a) + DigitsOf(b)
  {
    if a != [] {
      assert (a + b)[1..] == a[1..] + b;
      DigitsOfConcat(a[1..], b);
    } else {
      assert a + b == b;
    }
  }

  /** A string without white space is left as it is by `RemoveSpaces`. */
  lemma {:induction false} RemoveSpacesOfNoSpace(s: string)
    requires NoSpace(s)
    ensures RemoveSpaces(s) == s
  {
    if s != [] {
      RemoveSpacesOfNoSpace(s[1..]);
    }
  }

  /** A string of white space is deleted entirely by `RemoveSpaces`. */
  lemma {:induction false} RemoveSpacesOfAllSpace(s: string)
    requires AllSpace(s)
    ensures RemoveSpaces(s) == []
  {
    if s != [] {
      assert AllSpace(s[1..]) by {
        forall k | 0 <= k < |s| - 1 ensures IsSpace(s[1..][k]) {
          assert s[1..][k] == s[k + 1];
        }
      }
      RemoveSpacesOfAllSpace(s[1..]);
    }
  }

  /** A string of digits is left as it is by `DigitsOf`. */
  lemma {:induction false} DigitsOfDigits(s: string)
    requires AllDigits(s)
    ensures DigitsOf(s) == s
  {
    if s != [] {
      DigitsOfDigits(s[1..]);
    }
  }

  /** Deleting white space deletes no digit: both strings have the same digits. */
  lemma {:induction false} DigitsOfRemoveSpaces(s: string)
    ensures DigitsOf(RemoveSpaces(s)) == DigitsOf(s)
  {
    if s != [] {
      DigitsOfRemoveSpaces(s[1..]);
      var head := if IsSpace(s[0]) then [] else [s[0]];
      DigitsOfConcat(head, RemoveSpaces(s[1..]));
      if IsDigit(s[0]) {
        DigitIsNotSpace(s[0]);
      }
    }
  }

  lemma DigitsOfAfterNone(x: string, y: string)
    requires DigitsOf(x) == []
    ensures DigitsOf(x + y) == DigitsOf(y)
  {
    DigitsOfConcat(x, y);
  }

  lemma DigitsOfAfterDigits(d: string, y: string)
    requires AllDigits(d)
    ensures DigitsOf(d + y) == d + DigitsOf(y)
  {
    DigitsOfConcat(d, y);
    DigitsOfDigits(d);
  }

  lemma NoSpaceOfDigits(s: string)
    requires AllDigits(s)
    ensures NoSpace(s)
  {
    forall k | 0 <= k < |s| ensures !IsSpace(s[k]) {
      DigitIsNotSpace(s[k]);
    }
  }
}
