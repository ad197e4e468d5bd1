/**
 * The phone-number formatter (v2/js/main.js, the `input` listener on every
 * `input[type="tel"]`): it keeps the digits of the control's text and lays
 * them out as `(ddd) ddd-dddd`.
 */
module PhoneFormatter {
  import opened Text
  import PhoneRule

  function Min(a: int, b: int): (m: int)
    ensures m <= a && m <= b && (m == a || m == b)
  {
    if a <= b then a else b
  }

  /** The text the listener writes back into the control, given the text it found there. */
  function Format(s: string): (r: string)
    ensures |r| <= 14
    ensures AllDigits(r) <==> |DigitsOf(s)| < 3
  {
    var d := DigitsOf(s);
    if |d| >= 6 then LongLayout(d[..3], d[3..6], d[6..Min(10, |d|)])
    else if |d| >= 3 then ShortLayout(d[..3], d[3..])
    else d
  }

  /** `(abc) def-g…`, the layout once there are six digits. */
  function LongLayout(a: string, b: string, c: string): (r: string)
    ensures |r| == |a| + |b| + |c| + 4 && r[0] == '('
  {
    "(" + (a + (")" + (" " + (b + ("-" + c)))))
  }

  /** `(abc) d…`, the layout of three to five digits. */
  function ShortLayout(a: string, b: string): (r: string)
    ensures |r| == |a| + |b| + 3 && r[0] == '('
  {
    "(" + (a + (") " + b))
  }

  lemma DigitsOfNonDigits(s: string)
    requires forall k :: 0 <= k < |s| ==> !IsDigit(s[k])
    ensures DigitsOf(s) == []
  {
  }

  /** The digits of `(abc) def-g…`. */
  lemma DigitsOfLongLayout(a: string, b: string, c: string)
    requires AllDigits(a) && AllDigits(b) && AllDigits(c)
    ensures DigitsOf(LongLayout(a, b, c)) == a + (b + c)
  {
    DigitsOfNonDigits("(");
    DigitsOfNonDigits(")");
    DigitsOfNonDigits(" ");
    DigitsOfNonDigits("-");
    DigitsOfAfterNone("-", c);
    DigitsOfDigits(c);
    DigitsOfAfterDigits(b, "-" + c);
    DigitsOfAfterNone(" ", b + ("-" + c));
    DigitsOfAfterNone(")", " " + (b + ("-" + c)));
    DigitsOfAfterDigits(a, ")" + (" " + (b + ("-" + c))));
    DigitsOfAfterNone("(", a + (")" + (" " + (b + ("-" + c)))));
  }

  /** The digits of `(abc) d…`. */
  lemma DigitsOfShortLayout(a: string, b: string)
    requires AllDigits(a) && AllDigits(b)
    ensures DigitsOf(ShortLayout(a, b)) == a + b
  {
    DigitsOfNonDigits("(");
    DigitsOfNonDigits(") ");
    DigitsOfDigits(b);
    DigitsOfAfterNone(") ", b);
    DigitsOfAfterDigits(a, ") " + b);
    DigitsOfAfterNone("(", a + (") " + b));
  }

  /** `Format` keeps the digits, in order, up to the tenth, and adds none. */
  lemma FormatKeepsDigits(s: string)
    ensures DigitsOf(Format(s)) == DigitsOf(s)[..Min(10, |DigitsOf(s)|)]
  {
    var d := DigitsOf(s);
    if |d| >= 6 {
      LongFormatKeepsDigits(s);
    } else if |d| >= 3 {
      ShortFormatKeepsDigits(s);
    } else {
      DigitsOfDigits(d);
      assert d[..Min(10, |d|)] == d;
    }
  }

  lemma LongFormatKeepsDigits(s: string)
    requires |DigitsOf(s)| >= 6
    ensures DigitsOf(Format(s)) == DigitsOf(s)[..Min(10, |DigitsOf(s)|)]
  {
    var d := DigitsOf(s);
    var m := Min(10, |d|);
    assert Format(s) == LongLayout(d[..3], d[3..6], d[6..m]);
    DigitsOfLongLayout(d[..3], d[3..6], d[6..m]);
    SplitThreeWays(d, m);
  }

  lemma SplitThreeWays(d: string, m: nat)
    requires 6 <= m <= |d|
    ensures d[..m] == d[..3] + (d[3..6] + d[6..m])
  {
    assert d[..m] == d[..6] + d[6..m];
    assert d[..6] == d[..3] + d[3..6];
  }

  lemma ShortFormatKeepsDigits(s: string)
    requires 3 <= |DigitsOf(s)| < 6
    ensures DigitsOf(Format(s)) == DigitsOf(s)[..Min(10, |DigitsOf(s)|)]
  {
    var d := DigitsOf(s);
    assert Format(s) == ShortLayout(d[..3], d[3..]);
    DigitsOfShortLayout(d[..3], d[3..]);
    assert d[..Min(10, |d|)] == d == d[..3] + d[3..];
  }

  /** Formatting text that is already formatted leaves it as it is. */
  lemma FormatIdempotent(s: string)
    ensures Format(Format(s)) == Format(s)
  {
    var d := DigitsOf(s);
    FormatKeepsDigits(s);
    var e := DigitsOf(Format(s));
    assert e == d[..Min(10, |d|)];
    if |d| >= 6 {
      assert e[..3] == d[..3] && e[3..6] == d[3..6] && e[6..Min(10, |e|)] == d[6..Min(10, |d|)];
    } else if |d| >= 3 {
      assert e == d;
    } else {
      assert e == d;
    }
  }

  /**
   * The phone rule accepts the formatted text exactly when the input held at
   * least ten digits.
   */
  lemma FormatPassesPhoneRule(s: string)
    ensures PhoneRule.IsPhone(Format(s)) <==> |DigitsOf(s)| >= 10
  {
    if PhoneRule.IsPhone(Format(s)) {
      AcceptedFormatHasTenDigits(s);
    }
    if |DigitsOf(s)| >= 10 {
      TenDigitsFormatAccepted(s);
    }
  }

  lemma AcceptedFormatHasTenDigits(s: string)
    requires PhoneRule.IsPhone(Format(s))
    ensures |DigitsOf(s)| >= 10
  {
    PhoneRule.AcceptedShape(Format(s));
    FormatKeepsDigits(s);
  }

  lemma TenDigitsFormatAccepted(s: string)
    requires |DigitsOf(s)| >= 10
    ensures PhoneRule.IsPhone(Format(s))
  {
    var d := DigitsOf(s);
    var p := PhoneRule.PhoneParts(true, d[..3], true, " ", d[3..6], "-", d[6..10]);
    assert Format(s) == PhoneRule.Render(p);
    PhoneRule.RenderPassesRule(p);
  }
}
