/**
 * The acceptance test of the service-area checker (v2/js/main.js,
 * `initZipcodeChecker`): the input is trimmed, then it must be five
 * characters long and match `^\d+$`.
 */
module ZipcodeChecker {
  import opened Text
  import Validators

  /** `^\d+$`: one or more digits and nothing else. */
  predicate DigitRun(s: string) {
    |s| > 0 && AllDigits(s)
  }

  /** Whether the checker accepts the text typed into its input. */
  predicate Accepts(input: string) {
    var zipcode := Trim(input);
    |zipcode| == 5 && DigitRun(zipcode)
  }

  /**
   * The checker accepts exactly the inputs whose trimmed text passes the
   * booking form's zip-code rule.
   */
  lemma AcceptsIffTrimmedPassesZipRule(input: string, checked: bool)
    ensures Accepts(input) <==> Validators.Passes(Validators.ZipCode, Trim(input), checked)
  {
    Validators.ZipRule(Trim(input), checked);
  }

  /** Whatever the booking form's zip-code rule accepts, the checker accepts too. */
  lemma ZipRulePassImpliesAccepts(input: string, checked: bool)
    requires Validators.Passes(Validators.ZipCode, input, checked)
    ensures Accepts(input)
  {
    Validators.ZipRule(input, checked);
    TrimOfDigits(input);
  }

  /**
   * The converse fails: the checker trims and the form's rule does not, so a
   * zip code typed with a leading space is accepted here and rejected there.
   */
  lemma PaddedZipCode(checked: bool)
    ensures Accepts(" 12345")
    ensures !Validators.Passes(Validators.ZipCode, " 12345", checked)
  {
    var v := " 12345";
    var z := Validators.ExampleZip();
    TrimOfDigits(z);
    assert IsSpace(v[0]) && v[1..] == z;
    assert LeadingSpaces(v) == 1;
    Validators.ZipRuleRejectsPadding(checked);
  }
}
