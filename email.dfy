/**
 * The booking form's e-mail rule, the pattern `^[^\s@]+@[^\s@]+\.[^\s@]+$`
 * (v2/js/main.js, the `email` entry of the rule table).
 */
module EmailRule {
  import opened Text

  /** A character of the class `[^\s@]`. */
  predicate Plain(c: char) {
    !IsSpace(c) && c != '@'
  }

  /** `[^\s@]+`: a non-empty run of plain characters. */
  predicate PlainRun(s: string) {
    |s| > 0 && forall k :: 0 <= k < |s| ==> Plain(s[k])
  }

  /**
   * The language of the pattern: a plain run, `@`, a plain run, `.`, a plain
   * run, and nothing before or after (the pattern is anchored at both ends).
   */
  ghost predicate MatchesPattern(v: string) {
    exists a, b :: 0 < a < b < |v| && Shape(v, a, b)
  }

  /** The split of `v` at `@` (index `a`) and `.` (index `b`) that the pattern describes. */
  predicate Shape(v: string, a: nat, b: nat)
    requires a < b < |v|
  {
    PlainRun(v[..a]) && v[a] == '@' && PlainRun(v[a + 1..b]) && v[b] == '.' && PlainRun(v[b + 1..])
  }

  /** The number of occurrences of `c` in `s`. */
  function CountOf(s: string, c: char): (n: nat)
    ensures n <= |s|
    ensures n == 0 <==> c !in s
  {
    if s == [] then 0 else (if s[0] == c then 1 else 0) + CountOf(s[1..], c)
  }

  /** `indexOf`: the first position of `c` in `s`, or `|s|` when there is none. */
  function IndexOf(s: string, c: char): (i: nat)
    ensures i <= |s|
    ensures i < |s| ==> s[i] == c
    ensures c !in s[..i]
  {
    if s == [] || s[0] == c then 0 else 1 + IndexOf(s[1..], c)
  }

  /** `d` has a `.` with at least one character on each side of it. */
  predicate HasInnerDot(d: string) {
    exists k :: 0 < k < |d| - 1 && d[k] == '.'
  }

  /**
   * The rule as the form applies it, stated as plain conditions: no white
   * space, exactly one `@`, something before it, and a `.` inside the part
   * after it.
   */
  predicate IsEmail(v: string) {
    NoSpace(v) && CountOf(v, '@') == 1 && 0 < IndexOf(v, '@') && HasInnerDot(v[IndexOf(v, '@') + 1..])
  }

  lemma {:induction false} CountOfConcat(s: string, t: string, c: char)
    ensures CountOf(s + t, c) == CountOf(s, c) + CountOf(t, c)
  {
    if s == [] {
      assert s + t == t;
    } else {
      assert (s + t)[1..] == s[1..] + t;
      CountOfConcat(s[1..], t, c);
    }
  }

  /** Splitting `v` around an occurrence of `c` at `a`. */
  lemma CountAround(v: string, a: nat, c: char)
    requires a < |v| && v[a] == c
    ensures CountOf(v, c) == CountOf(v[..a], c) + 1 + CountOf(v[a + 1..], c)
  {
    assert v == v[..a] + ([v[a]] + v[a + 1..]);
    CountOfConcat(v[..a], [v[a]] + v[a + 1..], c);
    CountOfConcat([v[a]], v[a + 1..], c);
  }

  /** Every value that passes the plain conditions matches the pattern. */
  lemma IsEmailSound(v: string)
    requires IsEmail(v)
    ensures MatchesPattern(v)
  {
    var a := IndexOf(v, '@');
    var d := v[a + 1..];
    var k :| 0 < k < |d| - 1 && d[k] == '.';
    var b := a + 1 + k;
    CountAround(v, a, '@');
    assert '@' !in v[a + 1..];
    assert forall j :: 0 <= j < |v| && j != a ==> Plain(v[j]) by {
      forall j | 0 <= j < |v| && j != a ensures Plain(v[j]) {
        if j < a {
          assert v[j] == v[..a][j];
        } else {
          assert v[j] == v[a + 1..][j - a - 1];
        }
      }
    }
    assert v[a + 1..b] == d[..k] && v[b + 1..] == d[k + 1..];
    assert Shape(v, a, b);
  }

  /** In the pattern's split, every character except the `@` is plain. */
  lemma ShapePlain(v: string, a: nat, b: nat)
    requires a < b < |v| && Shape(v, a, b)
    ensures forall j :: 0 <= j < |v| && j != a ==> Plain(v[j])
  {
    forall j | 0 <= j < |v| && j != a ensures Plain(v[j]) {
      if j < a {
        assert v[j] == v[..a][j];
      } else if j < b {
        assert v[j] == v[a + 1..b][j - a - 1];
      } else if j > b {
        assert v[j] == v[b + 1..][j - b - 1];
      }
    }
  }

  /** Every value the pattern matches passes the plain conditions. */
  lemma IsEmailComplete(v: string)
    requires MatchesPattern(v)
    ensures IsEmail(v)
  {
    var a, b :| 0 < a < b < |v| && Shape(v, a, b);
    ShapePlain(v, a, b);
    assert NoSpace(v);
    assert '@' !in v[..a] by {
      forall j | 0 <= j < a ensures v[..a][j] != '@' {
        assert v[..a][j] == v[j];
      }
    }
    var d := v[a + 1..];
    assert '@' !in d by {
      forall j | 0 <= j < |d| ensures d[j] != '@' {
        assert d[j] == v[a + 1 + j];
      }
    }
    CountAround(v, a, '@');
    IndexOfFirst(v, '@', a);
    assert d[b - a - 1] == '.';
  }

  /** The plain conditions hold exactly of the strings the pattern matches. */
  lemma IsEmailMatchesPattern(v: string)
    ensures IsEmail(v) <==> MatchesPattern(v)
  {
    if IsEmail(v) {
      IsEmailSound(v);
    }
    if MatchesPattern(v) {
      IsEmailComplete(v);
    }
  }

  /** `IndexOf` finds the first occurrence. */
  lemma {:induction false} IndexOfFirst(s: string, c: char, a: nat)
    requires a < |s| && s[a] == c && c !in s[..a]
    ensures IndexOf(s, c) == a
  {
    if a > 0 {
      assert s[1..][..a - 1] == s[..a][1..];
      IndexOfFirst(s[1..], c, a - 1);
    }
  }

  /** A sample address that the rule rejects: it has no `@`. */
  lemma SampleWithoutAt()
    ensures !IsEmail("not-an-email")
  {
    var v := "not-an-email";
    assert '@' !in v;
    assert CountOf(v, '@') == 0;
  }

  /** A sample address that the rule accepts. */
  lemma SampleShortAddress()
    ensures IsEmail("a@b.co")
  {
    var v := "a@b.co";
    assert PlainRun(v[..1]) by {
      assert v[..1][0] == 'a';
    }
    assert PlainRun(v[2..3]) by {
      assert v[2..3][0] == 'b';
    }
    assert PlainRun(v[4..]) by {
      assert v[4..][0] == 'c' && v[4..][1] == 'o';
    }
    assert Shape(v, 1, 3);
    IsEmailComplete(v);
  }
}
