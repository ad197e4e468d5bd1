/**
 * The booking form's rule table (v2/js/main.js, `validators`): for each field
 * name, a test of the field's value (or, for the terms box, of its checked
 * flag) and the message shown when the test fails. The table is data; one
 * interpreter, `Holds`, gives each kind of test its meaning.
 */
module Validators {
  import opened Text
  import EmailRule
  import PhoneRule

  /** The keys of the rule table; each is the `name` attribute of one form control. */
  datatype FieldName =
    | FirstName | LastName | Email | Phone | Address
    | City | ZipCode | ServiceType | Description | Terms

  /** The order in which the table lists its keys, which is the order `Object.keys` returns them. */
  const RULE_ORDER: seq<FieldName> :=
    [FirstName, LastName, Email, Phone, Address, City, ZipCode, ServiceType, Description, Terms]

  /** The position of a name in the table's key order. */
  function Rank(name: FieldName): (r: nat)
    ensures r < |RULE_ORDER| && RULE_ORDER[r] == name
  {
    match name
    case FirstName => 0 case LastName => 1 case Email => 2 case Phone => 3
    case Address => 4 case City => 5 case ZipCode => 6 case ServiceType => 7
    case Description => 8 case Terms => 9
  }

  /** `Rank` undoes indexing into the key order. */
  lemma RankOfPosition(k: nat)
    requires k < |RULE_ORDER|
    ensures Rank(RULE_ORDER[k]) == k
  {
  }

  /** The first `k + 1` names of the key order are the first `k` and then the `k`-th. */
  lemma OrderPrefixStep(k: nat)
    requires k < |RULE_ORDER|
    ensures RULE_ORDER[..k + 1] == RULE_ORDER[..k] + [RULE_ORDER[k]]
  {
  }

  /** The kinds of test the table uses. */
  datatype Check =
    | MinTrimmedLength(min: nat)  // `value.trim().length >= min`
    | EmailShape                  // `/^[^\s@]+@[^\s@]+\.[^\s@]+$/.test(value)`
    | PhoneShape                  // the phone pattern, after deleting white space
    | FiveDigits                  // `/^\d{5}$/.test(value)`, on the untrimmed value
    | NonEmpty                    // `value !== ''`
    | IsChecked                   // `element.checked`

  /** The test of each entry of the table. */
  function CheckFor(name: FieldName): (c: Check) {
    match name
    case FirstName => MinTrimmedLength(2)
    case LastName => MinTrimmedLength(2)
    case Email => EmailShape
    case Phone => PhoneShape
    case Address => MinTrimmedLength(5)
    case City => MinTrimmedLength(2)
    case ZipCode => FiveDigits
    case ServiceType => NonEmpty
    case Description => MinTrimmedLength(10)
    case Terms => IsChecked
  }

  /** The message of each entry of the table, shown while its test fails. */
  function MessageFor(name: FieldName): (m: string) {
    match name
    case FirstName => "Please enter your first name"
    case LastName => "Please enter your last name"
    case Email => "Please enter a valid email address"
    case Phone => "Please enter a valid phone number"
    case Address => "Please enter your address"
    case City => "Please enter your city"
    case ZipCode => "Please enter a valid 5-digit zip code"
    case ServiceType => "Please select a service type"
    case Description => "Please describe your project (at least 10 characters)"
    case Terms => "Please agree to the terms"
  }

  /** What a test says of a control with text `value` and checked flag `checked`. */
  predicate Holds(check: Check, value: string, checked: bool) {
    match check
    case MinTrimmedLength(min) => |Trim(value)| >= min
    case EmailShape => EmailRule.IsEmail(value)
    case PhoneShape => PhoneRule.IsPhone(value)
    case FiveDigits => |value| == 5 && AllDigits(value)
    case NonEmpty => value != ""
    case IsChecked => checked
  }

  /** Whether the control named `name` passes its rule. */
  predicate Passes(name: FieldName, value: string, checked: bool) {
    Holds(CheckFor(name), value, checked)
  }

  /** What each entry of the table demands, spelled out field by field. */
  lemma RuleTable(v: string, c: bool)
    ensures Passes(FirstName, v, c) <==> |Trim(v)| >= 2
    ensures Passes(LastName, v, c) <==> |Trim(v)| >= 2
    ensures Passes(Email, v, c) <==> EmailRule.IsEmail(v)
    ensures Passes(Phone, v, c) <==> PhoneRule.IsPhone(v)
    ensures Passes(Address, v, c) <==> |Trim(v)| >= 5
    ensures Passes(City, v, c) <==> |Trim(v)| >= 2
    ensures Passes(ZipCode, v, c) <==> |v| == 5 && AllDigits(v)
    ensures Passes(ServiceType, v, c) <==> v != ""
    ensures Passes(Description, v, c) <==> |Trim(v)| >= 10
    ensures Passes(Terms, v, c) <==> c
  {
    assert CheckFor(FirstName) == CheckFor(LastName) == CheckFor(City) == MinTrimmedLength(2);
    assert CheckFor(Address) == MinTrimmedLength(5);
    assert CheckFor(Description) == MinTrimmedLength(10);
    assert CheckFor(Email) == EmailShape && CheckFor(Phone) == PhoneShape;
    assert CheckFor(ZipCode) == FiveDigits && CheckFor(ServiceType) == NonEmpty;
    assert CheckFor(Terms) == IsChecked;
  }

  /** The table lists every field name exactly once. */
  lemma RuleOrderListsEachNameOnce()
    ensures forall n: FieldName :: n in RULE_ORDER
    ensures forall i, j :: 0 <= i < j < |RULE_ORDER| ==> RULE_ORDER[i] != RULE_ORDER[j]
  {
    forall n: FieldName ensures n in RULE_ORDER {
      assert RULE_ORDER[Rank(n)] == n;
    }
  }

  /** No two fields share a failure message, so a message names its field. */
  lemma MessagesIdentifyFields(m: FieldName, n: FieldName)
    requires m != n
    ensures MessageFor(m) != MessageFor(n)
  {
  }

  /** Only the terms rule reads the checked flag, and it reads nothing else. */
  lemma CheckedFlagOnlyForTerms(n: FieldName, v: string, w: string, c: bool, d: bool)
    ensures n != Terms ==> Passes(n, v, c) == Passes(n, v, d)
    ensures Passes(Terms, v, c) == Passes(Terms, w, c) == c
  {
  }

  /**
   * The length rules look only at the trimmed value: surrounding white space
   * never changes their verdict.
   */
  lemma LengthRulesIgnorePadding(n: FieldName, v: string, c: bool)
    requires CheckFor(n).MinTrimmedLength?
    ensures Passes(n, v, c) == Passes(n, Trim(v), c)
  {
    TrimIdempotent(v);
  }

  /** The zip-code rule: exactly five characters, all of them digits. */
  lemma ZipRule(v: string, c: bool)
    ensures Passes(ZipCode, v, c) <==> |v| == 5 && AllDigits(v)
  {
    assert CheckFor(ZipCode) == FiveDigits;
  }

  /**
   * A value that passes the zip-code rule has exactly five characters, all of
   * them digits; trimming changes nothing about it.
   */
  lemma ZipRuleOnTrimmed(v: string, c: bool)
    requires Passes(ZipCode, v, c)
    ensures Trim(v) == v && |v| == 5
  {
    ZipRule(v, c);
    TrimOfDigits(v);
  }

  /** The zip-code rule reads the value untrimmed: a leading space fails it. */
  lemma ZipRuleRejectsPadding(c: bool)
    ensures !Passes(ZipCode, " 12345", c)
  {
    var v := " 12345";
    assert CheckFor(ZipCode) == FiveDigits;
    assert |v| == 6;
  }

  /** Two sample zip codes: five digits pass, four fail. */
  lemma ZipRuleSamples(c: bool)
    ensures Passes(ZipCode, "12345", c)
    ensures !Passes(ZipCode, "1234", c)
  {
    assert CheckFor(ZipCode) == FiveDigits;
    var v := ExampleZip();
  }

  /** A value that passes the test `check`: no kind of test is impossible to meet. */
  function ExampleFor(check: Check): (v: string)
    ensures Holds(check, v, true)
  {
    match check
    case MinTrimmedLength(min) => ExampleText(min)
    case EmailShape => ExampleEmail()
    case PhoneShape => ExamplePhone()
    case FiveDigits => ExampleZip()
    case NonEmpty => ExampleText(1)
    case IsChecked => ""
  }

  /** A value for each field that passes its rule (with the box ticked for the terms). */
  function Example(n: FieldName): (v: string)
    ensures Passes(n, v, true)
  {
    ExampleFor(CheckFor(n))
  }

  /** `12345`, a five-digit zip code. */
  function ExampleZip(): (v: string)
    ensures v == "12345" && |v| == 5 && AllDigits(v)
  {
    var v := "12345";
    assert AllDigits(v) by {
      forall k | 0 <= k < |v| ensures IsDigit(v[k]) {
        assert v[k] in "12345";
      }
    }
    v
  }

  function ExampleText(n: nat): (v: string)
    ensures |Trim(v)| >= n
  {
    var v := seq(n, _ => 'x');
    TrimOfTrimmed(v);
    v
  }

  function ExampleEmail(): (v: string)
    ensures EmailRule.IsEmail(v)
  {
    EmailRule.SampleShortAddress();
    "a@b.co"
  }

  function ExamplePhone(): (v: string)
    ensures PhoneRule.IsPhone(v)
  {
    var p := PhoneRule.PhoneParts(false, "555", false, "", "123", "", "4567");
    assert AllDigits(p.area) && AllDigits(p.exchange) && AllDigits(p.line) by {
      forall k | 0 <= k < 4 ensures (k < 3 ==> IsDigit(p.area[k]) && IsDigit(p.exchange[k])) && IsDigit(p.line[k]) {
      }
    }
    PhoneRule.RenderPassesRule(p);
    PhoneRule.Render(p)
  }
}
