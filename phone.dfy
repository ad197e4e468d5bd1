/**
 * The booking form's phone rule (v2/js/main.js, the `phone` entry of the rule
 * table): white space is deleted, then the rest must match
 * `^\(?([0-9]{3})\)?[-. ]?([0-9]{3})[-. ]?([0-9]{4})$`.
 */
module PhoneRule {
  import opened Text
  import opened Wrappers

  /** `[-. ]`: the separator class of the pattern. */
  predicate IsSeparator(c: char) {
    c == '-' || c == '.' || c == ' '
  }

  /** `[-. ]?`: nothing, or one separator. */
  predicate OptSeparator(s: string) {
    s == [] || (|s| == 1 && IsSeparator(s[0]))
  }

  /**
   * The pieces of a matched string, in pattern order: an optional `(`, three
   * digits, an optional `)`, an optional separator, three digits, an optional
   * separator and four digits.
   */
  datatype PhoneParts = PhoneParts(
    open: bool, area: string, close: bool, sep1: string,
    exchange: string, sep2: string, line: string)

  predicate WellFormed(p: PhoneParts) {
    |p.area| == 3 && AllDigits(p.area) && OptSeparator(p.sep1)
    && |p.exchange| == 3 && AllDigits(p.exchange) && OptSeparator(p.sep2)
    && |p.line| == 4 && AllDigits(p.line)
  }

  function Optional(present: bool, c: char): (r: string) {
    if present then [c] else []
  }

  /** The string that the pieces spell, left to right. */
  function Render(p: PhoneParts): (s: string) {
    Optional(p.open, '(') + (p.area + (Optional(p.close, ')')
    + (p.sep1 + (p.exchange + (p.sep2 + p.line)))))
  }

  /** The language of the anchored pattern. */
  ghost predicate MatchesPattern(s: string) {
    exists p :: WellFormed(p) && Render(p) == s
  }

  /** `c?`: takes `c` off the front of `s` when it is there. */
  function TakeOptional(s: string, c: char): (r: (bool, string))
    ensures s == Optional(r.0, c) + r.1
    ensures r.0 <==> |s| > 0 && s[0] == c
  {
    if |s| > 0 && s[0] == c then (true, s[1..]) else (false, s)
  }

  /** `[-. ]?`: takes one separator off the front of `s` when there is one. */
  function TakeSeparator(s: string): (r: (string, string))
    ensures OptSeparator(r.0) && s == r.0 + r.1
    ensures r.0 == [] <==> s == [] || !IsSeparator(s[0])
  {
    if |s| > 0 && IsSeparator(s[0]) then ([s[0]], s[1..]) else ([], s)
  }

  /** `[0-9]{n}`: takes `n` digits off the front of `s`, or fails. */
  function TakeDigits(s: string, n: nat): (r: Option<(string, string)>)
    ensures r.Some? <==> |s| >= n && AllDigits(s[..n])
    ensures r.Some? ==> |r.value.0| == n && AllDigits(r.value.0) && s == r.value.0 + r.value.1
  {
    if |s| >= n && AllDigits(s[..n]) then Some((s[..n], s[n..])) else None
  }

  /**
   * Reads `s` against the pattern from left to right. Every optional piece is
   * a character that is not a digit and is followed by a digit, so there is
   * never a choice to make.
   */
  function Parse(s: string): (r: Option<PhoneParts>)
    ensures r.Some? ==> WellFormed(r.value) && Render(r.value) == s
  {
    var (open, s1) := TakeOptional(s, '(');
    match TakeDigits(s1, 3)
    case None => None
    case Some((area, s2)) =>
      var (close, s3) := TakeOptional(s2, ')');
      var (sep1, s4) := TakeSeparator(s3);
      match TakeDigits(s4, 3)
      case None => None
      case Some((exchange, s5)) =>
        var (sep2, line) := TakeSeparator(s5);
        if |line| == 4 && AllDigits(line) then
          Some(PhoneParts(open, area, close, sep1, exchange, sep2, line))
        else
          None
  }

  /** The phone rule: white space deleted, then the pattern. */
  predicate IsPhone(v: string) {
    Parse(RemoveSpaces(v)).Some?
  }

  lemma TakeDigitsPrefix(d: string, t: string)
    requires AllDigits(d)
    ensures TakeDigits(d + t, |d|) == Some((d, t))
  {
    assert (d + t)[..|d|] == d && (d + t)[|d|..] == t;
  }

  lemma TakeOptionalPrefix(present: bool, c: char, t: string)
    requires t == [] || t[0] != c
    ensures TakeOptional(Optional(present, c) + t, c) == (present, t)
  {
    if present {
      assert ([c] + t)[1..] == t;
    } else {
      assert Optional(present, c) + t == t;
    }
  }

  lemma TakeSeparatorPrefix(sep: string, t: string)
    requires OptSeparator(sep) && |t| > 0 && IsDigit(t[0])
    ensures TakeSeparator(sep + t) == (sep, t)
  {
    if sep == [] {
      assert sep + t == t;
    } else {
      assert (sep + t)[0] == sep[0] && (sep + t)[1..] == t;
    }
  }

  /** An optional separator followed by a digit never starts with `)`. */
  lemma SeparatorThenDigit(sep: string, t: string)
    requires OptSeparator(sep) && |t| > 0 && IsDigit(t[0])
    ensures (sep + t)[0] != ')'
  {
    if sep == [] {
      assert sep + t == t;
    } else {
      assert (sep + t)[0] == sep[0];
    }
  }

  /** Reading back what the pieces spell gives back the same pieces. */
  lemma ParseRender(p: PhoneParts)
    requires WellFormed(p)
    ensures Parse(Render(p)) == Some(p)
  {
    var s6 := p.line;
    var s5 := p.sep2 + s6;
    var s4 := p.exchange + s5;
    var s3 := p.sep1 + s4;
    var s2 := Optional(p.close, ')') + s3;
    var s1 := p.area + s2;
    assert Render(p) == Optional(p.open, '(') + s1;
    assert s1[0] == p.area[0];
    TakeOptionalPrefix(p.open, '(', s1);
    TakeDigitsPrefix(p.area, s2);
    assert IsDigit(p.exchange[0]) && s4[0] == p.exchange[0];
    TakeSeparatorPrefix(p.sep1, s4);
    SeparatorThenDigit(p.sep1, s4);
    TakeOptionalPrefix(p.close, ')', s3);
    TakeDigitsPrefix(p.exchange, s5);
    assert IsDigit(s6[0]);
    TakeSeparatorPrefix(p.sep2, s6);
  }

  /** The left-to-right reading accepts exactly the strings the pattern matches. */
  lemma ParseMatchesPattern(s: string)
    ensures Parse(s).Some? <==> MatchesPattern(s)
  {
    if MatchesPattern(s) {
      var p :| WellFormed(p) && Render(p) == s;
      ParseRender(p);
    }
  }

  /** Deleting white space from a separator leaves a separator. */
  lemma RemoveSpacesOfSeparator(sep: string)
    requires OptSeparator(sep)
    ensures OptSeparator(RemoveSpaces(sep)) && RemoveSpaces(sep) != " "
  {
  }

  lemma RemoveSpacesOfOptional(present: bool, c: char)
    requires !IsSpace(c)
    ensures RemoveSpaces(Optional(present, c)) == Optional(present, c)
  {
  }

  /**
   * Deleting white space from a matched string leaves a matched string: the
   * same pieces, with any space separator dropped.
   */
  lemma RemoveSpacesOfRender(p: PhoneParts)
    requires WellFormed(p)
    ensures RemoveSpaces(Render(p)) == Render(p.(sep1 := RemoveSpaces(p.sep1), sep2 := RemoveSpaces(p.sep2)))
  {
    NoSpaceOfDigits(p.area);
    NoSpaceOfDigits(p.exchange);
    NoSpaceOfDigits(p.line);
    RemoveSpacesOfNoSpace(p.area);
    RemoveSpacesOfNoSpace(p.exchange);
    RemoveSpacesOfNoSpace(p.line);
    RemoveSpacesOfOptional(p.open, '(');
    RemoveSpacesOfOptional(p.close, ')');
    var s5 := p.sep2 + p.line;
    var s4 := p.exchange + s5;
    var s3 := p.sep1 + s4;
    var s2 := Optional(p.close, ')') + s3;
    var s1 := p.area + s2;
    RemoveSpacesConcat(p.sep2, p.line);
    RemoveSpacesConcat(p.exchange, s5);
    RemoveSpacesConcat(p.sep1, s4);
    RemoveSpacesConcat(Optional(p.close, ')'), s3);
    RemoveSpacesConcat(p.area, s2);
    RemoveSpacesConcat(Optional(p.open, '('), s1);
  }

  /** Every string the pattern matches passes the phone rule. */
  lemma RenderPassesRule(p: PhoneParts)
    requires WellFormed(p)
    ensures IsPhone(Render(p))
  {
    var q := p.(sep1 := RemoveSpaces(p.sep1), sep2 := RemoveSpaces(p.sep2));
    RemoveSpacesOfSeparator(p.sep1);
    RemoveSpacesOfSeparator(p.sep2);
    RemoveSpacesOfRender(p);
    ParseRender(q);
  }

  lemma DigitsOfOptional(present: bool, c: char)
    requires !IsDigit(c)
    ensures DigitsOf(Optional(present, c)) == []
  {
  }

  lemma DigitsOfSeparator(sep: string)
    requires OptSeparator(sep)
    ensures DigitsOf(sep) == []
  {
  }

  /** The digits after the area code: the exchange and the line number. */
  lemma DigitsOfSubscriber(sep1: string, exchange: string, sep2: string, line: string)
    requires OptSeparator(sep1) && AllDigits(exchange) && OptSeparator(sep2) && AllDigits(line)
    ensures DigitsOf(sep1 + (exchange + (sep2 + line))) == exchange + line
  {
    DigitsOfSeparator(sep2);
    DigitsOfAfterNone(sep2, line);
    DigitsOfDigits(line);
    DigitsOfAfterDigits(exchange, sep2 + line);
    DigitsOfSeparator(sep1);
    DigitsOfAfterNone(sep1, exchange + (sep2 + line));
  }

  /** The digits of a matched string are the three groups, in order. */
  lemma DigitsOfRender(p: PhoneParts)
    requires WellFormed(p)
    ensures DigitsOf(Render(p)) == p.area + p.exchange + p.line
  {
    var s3 := p.sep1 + (p.exchange + (p.sep2 + p.line));
    var s2 := Optional(p.close, ')') + s3;
    var s1 := p.area + s2;
    DigitsOfSubscriber(p.sep1, p.exchange, p.sep2, p.line);
    DigitsOfOptional(p.close, ')');
    DigitsOfAfterNone(Optional(p.close, ')'), s3);
    DigitsOfAfterDigits(p.area, s2);
    DigitsOfOptional(p.open, '(');
    DigitsOfAfterNone(Optional(p.open, '('), s1);
    assert DigitsOf(Render(p)) == p.area + (p.exchange + p.line);
  }

  /**
   * Every accepted value holds exactly ten digits, and once its white space is
   * deleted it is 10 to 14 characters long.
   */
  lemma AcceptedShape(v: string)
    requires IsPhone(v)
    ensures |DigitsOf(v)| == 10
    ensures 10 <= |RemoveSpaces(v)| <= 14
  {
    var p := Parse(RemoveSpaces(v)).value;
    DigitsOfRender(p);
    DigitsOfRemoveSpaces(v);
  }
}
