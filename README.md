# be-repaired booking page: a verified model of the script's core

This project models the logic in `v2/js/main.js` of the be-repaired landing page.

- **The booking form.**
  - Its rule table: ten named rules, each a test on a control's text (or, for the terms box, on its checked flag) with a fixed message.
  - `validateField`, which sets or clears a control's `error` class and its message.
  - The `blur` and `input` listeners.
  - The `submit` handler. It re-checks every control in rule-table order, builds `formData`, and either starts the simulated submission or leaves the form idle, pointing at the first flagged control.
  - The deferred completion of the submission.
  - `resetForm`.
- **The phone-number formatter** on `type="tel"` inputs.
- **The FAQ accordion's click rule.**
- **The zip-code checker's acceptance test.**

The regular expressions of the rules are written as predicates over strings.

- The e-mail pattern is stated as plain conditions and proved equal to the pattern's language.
- The phone pattern is read by a left-to-right parser, proved to accept exactly the pattern's language.

White space is the ECMAScript WhiteSpace and LineTerminator set. JavaScript uses that one set both for `\s` and for `trim()`.

The booking form is a class, `BookingForm.Booking`, with these fields:

- the controls, in document order;
- the display state of the form and the success panel;
- the submit button's `disabled` flag and its two labels;
- a flag saying that the completion callback is scheduled.

Its three phases (Idle, Submitting, Succeeded) are a function of those fields. `Valid()` ties the display state to the phase. The `setTimeout` callback is the explicit step `Complete`.

The modules are:

| module | file | models |
|---|---|---|
| Text | `text.dfy` | `\s`, `\d`, `trim()`, `replace(/\s/g, '')`, `replace(/\D/g, '')` |
| EmailRule | `email.dfy` | the e-mail rule |
| PhoneRule | `phone.dfy` | the phone rule |
| Validators | `validators.dfy` | the rule table |
| BookingForm | `booking.dfy` | `validateField`, the listeners, submit, completion, `resetForm` |
| PhoneFormatter | `formatter.dfy` | the phone-number formatter |
| FaqAccordion | `faq.dfy` | the accordion click |
| ZipcodeChecker | `zipcode.dfy` | the zip-code acceptance test |

## Model

| member | source | states |
|---|---|---|
| Text.IsSpace | v2/js/main.js:115 | the characters `\s` matches and `trim()` cuts: the ECMAScript WhiteSpace and LineTerminator code points (tab, line feed, vertical tab, form feed, carriage return, space, no-break space, U+1680, U+2000 to U+200A, U+2028, U+2029, U+202F, U+205F, U+3000 and U+FEFF) |
| Text.IsDigit | v2/js/main.js:131 | the characters `\d` and `[0-9]` match: the ASCII digits `0` to `9` only |
| Text.Trim | v2/js/main.js:107 | `trim()` cuts only white space, from both ends, and leaves a result that neither starts nor ends with white space |
| Text.TrimIdempotent | v2/js/main.js:107 | trimming a trimmed value changes nothing |
| Text.TrimOfDigits | v2/js/main.js:345-347 | a run of digits is its own trim |
| Text.RemoveSpaces | v2/js/main.js:119 | deleting white space leaves no white space and never lengthens the text |
| Text.RemoveSpacesConcat | v2/js/main.js:119 | deleting white space works piece by piece: on a concatenation it is the concatenation of the pieces' results |
| Text.RemoveSpacesOfNoSpace | v2/js/main.js:119 | text without white space is left as it is |
| Text.RemoveSpacesOfAllSpace | v2/js/main.js:119 | text made only of white space is deleted entirely; with the two rows above, this fixes the result of `replace(/\s/g, '')` on every input |
| Text.DigitsOf | v2/js/main.js:391 | deleting non-digits leaves only digits and never lengthens the text |
| Text.DigitsOfRemoveSpaces | v2/js/main.js:119 | deleting white space keeps every digit, in order |
| EmailRule.MatchesPattern | v2/js/main.js:115 | the language of `^[^\s@]+@[^\s@]+\.[^\s@]+$`: some split of the value into a plain run, `@`, a plain run, `.` and a plain run, where a plain run is one or more characters that are neither white space nor `@` |
| EmailRule.IsEmail | v2/js/main.js:115 | the rule as plain conditions: no white space, exactly one `@`, at least one character before it, and a `.` with a character on each side inside the part after it |
| EmailRule.IsEmailSound | v2/js/main.js:115 | a value with no white space, exactly one `@`, something before it and a `.` strictly inside the part after it matches `^[^\s@]+@[^\s@]+\.[^\s@]+$` |
| EmailRule.IsEmailComplete | v2/js/main.js:115 | every value the e-mail pattern matches meets those plain conditions |
| EmailRule.IsEmailMatchesPattern | v2/js/main.js:115 | the plain conditions hold exactly for the strings the pattern matches |
| EmailRule.SampleWithoutAt | v2/js/main.js:115 | `not-an-email` fails the rule |
| EmailRule.SampleShortAddress | v2/js/main.js:115 | `a@b.co` passes the rule |
| PhoneRule.MatchesPattern | v2/js/main.js:119 | the language of `^\(?([0-9]{3})\)?[-. ]?([0-9]{3})[-. ]?([0-9]{4})$`: the strings that well-formed pieces spell |
| PhoneRule.IsPhone | v2/js/main.js:119 | the phone rule: with every white-space character deleted, the value parses against the pattern |
| PhoneRule.Parse | v2/js/main.js:119 | a successful parse returns well-formed pieces that spell the input exactly |
| PhoneRule.ParseRender | v2/js/main.js:119 | parsing what well-formed pieces spell gives back the same pieces, so the pattern never has two readings |
| PhoneRule.ParseMatchesPattern | v2/js/main.js:119 | the parser accepts exactly the strings the anchored phone pattern matches |
| PhoneRule.RenderPassesRule | v2/js/main.js:119 | every string the pattern matches passes the rule, with white space deleted first |
| PhoneRule.AcceptedShape | v2/js/main.js:119 | every accepted value has exactly ten digits and is 10 to 14 characters long once its white space is deleted |
| Validators.Rank | v2/js/main.js:149 | each name's position in the key order that `Object.keys` gives the table |
| Validators.CheckFor | v2/js/main.js:105-146 | the test of each entry of the table: minimum trimmed lengths 2, 2, 5, 2 and 10 for first name, last name, address, city and description; the e-mail and phone shapes; five digits for the zip code; not empty for the service type; checked for the terms |
| Validators.MessageFor | v2/js/main.js:105-146 | the failure message of each entry, character for character |
| Validators.Holds | v2/js/main.js:107-143 | the meaning of each kind of test on a control's text and checked flag; only the length tests trim the text |
| Validators.Passes | v2/js/main.js:222 | whether a control with that name, text and checked flag passes its rule |
| Validators.RuleOrderListsEachNameOnce | v2/js/main.js:105-146 | the key order lists every rule name exactly once |
| Validators.RuleTable | v2/js/main.js:105-146 | each field's test: trimmed length at least 2 for first name, last name and city, 5 for the address and 10 for the description; the e-mail and phone rules; exactly five digits, untrimmed, for the zip code; not empty for the service type; checked for the terms |
| Validators.MessagesIdentifyFields | v2/js/main.js:105-146 | no two rules share a failure message |
| Validators.CheckedFlagOnlyForTerms | v2/js/main.js:142-143 | only the terms rule reads the checked flag, and it reads nothing else |
| Validators.LengthRulesIgnorePadding | v2/js/main.js:107 | a length rule gives the same verdict on a value and on its trim |
| Validators.ZipRule | v2/js/main.js:131 | the zip-code rule holds exactly for five characters that are all digits |
| Validators.ZipRuleOnTrimmed | v2/js/main.js:131 | a value that passes the zip-code rule is five characters long and has nothing to trim |
| Validators.ZipRuleRejectsPadding | v2/js/main.js:131 | the zip-code rule reads the value untrimmed: ` 12345` fails it |
| Validators.ZipRuleSamples | v2/js/main.js:131 | `12345` passes the zip-code rule and `1234` fails it |
| Validators.Example | v2/js/main.js:105-146 | every rule can be met: a passing value exists for each field |
| PhoneFormatter.Format | v2/js/main.js:391-399 | the text written back: the input's digits laid out as `(ddd) ddd-d…` cut at ten digits, as `(ddd) d…` for three to five digits, and bare for fewer than three; it is at most 14 characters, the length of `(ddd) ddd-dddd`, and is bare digits exactly when there are fewer than three |
| PhoneFormatter.LongLayout | v2/js/main.js:394 | the template `(${a}) ${b}-${c}`: `(`, the area digits, `) `, the next three digits, `-` and the rest |
| PhoneFormatter.ShortLayout | v2/js/main.js:396 | the template `(${a}) ${b}`: `(`, the area digits, `) ` and the rest |
| PhoneFormatter.FormatKeepsDigits | v2/js/main.js:391-399 | the formatted text holds the input's digits, in order, cut at ten, and no other digits |
| PhoneFormatter.FormatIdempotent | v2/js/main.js:391-399 | formatting formatted text leaves it unchanged |
| PhoneFormatter.FormatPassesPhoneRule | v2/js/main.js:391-399 | the phone rule accepts the formatted text exactly when the input held at least ten digits |
| PhoneFormatter.TenDigitsFormatAccepted | v2/js/main.js:394 | the long layout of ten or more digits passes the phone rule |
| ZipcodeChecker.Accepts | v2/js/main.js:345-347 | the checker's test: the trimmed input is five characters long and is one or more digits |
| ZipcodeChecker.AcceptsIffTrimmedPassesZipRule | v2/js/main.js:345-347 | the checker accepts an input exactly when its trimmed text passes the booking form's zip-code rule |
| ZipcodeChecker.ZipRulePassImpliesAccepts | v2/js/main.js:345-347 | whatever the booking form's zip-code rule accepts, the checker accepts |
| ZipcodeChecker.PaddedZipCode | v2/js/main.js:345-347 | ` 12345` is accepted by the checker and rejected by the form's rule |
| FaqAccordion.AfterClick | v2/js/main.js:83-90 | the flags after a click on item `i`: item `i` flipped, every other item inactive |
| FaqAccordion.Click | v2/js/main.js:81-91 | after a click on item `i`, every other item is inactive, item `i` is flipped, and at most one item is active |
| FaqAccordion.ClickOpensAtMostOne | v2/js/main.js:83-90 | after any click at most one item is open, and an item is open exactly when it is the clicked one and was closed |
| BookingForm.Revalidated | v2/js/main.js:216-237 | a checked control is flagged exactly when it fails its rule, its message slot holds the rule's message on failure and `""` on success, and nothing else about it changes |
| BookingForm.RevalidatedFixesConsistent | v2/js/main.js:216-237 | checking a control whose error state already agrees with its rule changes nothing |
| BookingForm.Cleared | v2/js/main.js:247-253 | after a reset a control holds its default text and checked state, is not flagged, has an empty message slot, and is otherwise unchanged |
| BookingForm.Find | v2/js/main.js:170 | the lookup returns the first control with the name, or nothing when no control has it |
| BookingForm.FirstFlagged | v2/js/main.js:204 | the first flagged control in document order, or nothing when none is flagged |
| BookingForm.FindByName | v2/js/main.js:170 | in a well-formed form, looking a control up by its own name finds that control |
| BookingForm.FindPresent | v2/js/main.js:170-171 | the lookup finds a control exactly for the names present in the form |
| BookingForm.CheckedUpTo | v2/js/main.js:169-176 | the loop keeps every control's place and name |
| BookingForm.StepPresentChecks | v2/js/main.js:170-172 | the turn of a name whose control is present re-checks that control and no other |
| BookingForm.StepPresentVerdict | v2/js/main.js:172-173 | the running verdict stays true only while the controls checked so far pass |
| BookingForm.StepAbsent | v2/js/main.js:171 | a name with no control is skipped and blocks nothing |
| BookingForm.SnapshotStepPresent | v2/js/main.js:174 | the turn of a present name records that control's value under the name |
| BookingForm.SnapshotStepAbsent | v2/js/main.js:171 | the turn of an absent name records nothing |
| BookingForm.SnapshotOf | v2/js/main.js:169-175 | `formData` after the loop has handled the given names in order: each name whose control is present mapped to the value of the first control with that name |
| BookingForm.FormData | v2/js/main.js:166-176 | the `formData` object the submit listener builds: the snapshot after every name of the table, in table order |
| BookingForm.SnapshotOfHas | v2/js/main.js:166-176 | after some names, `formData` holds a name exactly when it is among them and has a control, and then that control's value |
| BookingForm.FormDataContents | v2/js/main.js:166-176 | `formData` maps the name of each control in the form to its value and holds no other name |
| BookingForm.RecheckedFlagsFailures | v2/js/main.js:169-176 | once every control is re-checked, each is flagged exactly when it fails its rule |
| BookingForm.FlaggedAfterFailure | v2/js/main.js:202-207 | when some control fails, there is a first flagged control to move the focus to |
| BookingForm.CheckedAll | v2/js/main.js:169-176 | once the loop has handled every name, every control has been re-checked |
| BookingForm.PassAll | v2/js/main.js:165-176 | once the loop has handled every name, the verdict is true exactly when every control passes |
| BookingForm.Booking.Valid | v2/js/main.js:178-201 | the display invariant of the three phases: while a completion is pending, the form is shown with the loading label on a disabled button; otherwise the button is enabled with its default label and exactly one of the form and the success panel is shown |
| BookingForm.Booking.CurrentPhase | v2/js/main.js:178-201 | the phase: Submitting while a completion is pending, Succeeded while the success panel is shown, Idle otherwise |
| BookingForm.Booking.constructor | v2/js/main.js:99-102 | the page as loaded: the form shown, the success panel hidden, the button enabled with its default label, in the Idle phase |
| BookingForm.Booking.ValidateField | v2/js/main.js:216-237 | returns the rule's verdict on the control, and the control's flag and message slot become those of `Revalidated`; no other control changes |
| BookingForm.Booking.OnBlur | v2/js/main.js:152 | a blur always re-checks the control |
| BookingForm.Booking.OnInput | v2/js/main.js:153-157 | input re-checks the control only when it is already flagged, and otherwise changes nothing |
| BookingForm.Booking.OnTelInput | v2/js/main.js:389-401 | on a phone input the formatter replaces the control's text with `Format` of it |
| BookingForm.Booking.Edit | v2/js/main.js:149-159 | a user edit stores the new text, formatted first on a phone input, then re-checks the control only if it is flagged |
| BookingForm.Booking.Submit | v2/js/main.js:162-210 | every control is re-checked. The result is true exactly when every control passed, and `data` is the `formData` built from the controls. On success the phase becomes Submitting with the button disabled and the loading label shown. On failure the form, panel and button stay as they were, and the focus is the first flagged control, which exists |
| BookingForm.Booking.CheckEveryField | v2/js/main.js:165-176 | the loop re-checks every control exactly once, returns whether all passed, and returns `formData` |
| BookingForm.Booking.CheckName | v2/js/main.js:170-175 | one turn of the loop: the control of the `k`-th name, if present, is re-checked, folded into the verdict and recorded |
| BookingForm.Booking.Complete | v2/js/main.js:189-201 | completion hides the form, shows the success panel, and restores the button's default label and enabled state; the controls are untouched |
| BookingForm.Booking.ResetForm | v2/js/main.js:242-255 | every control returns to its defaults, unflagged and with an empty message; the form is shown and the success panel hidden; the button is as it was |
| BookingForm.Booking.ClearFlags | v2/js/main.js:252 | every control loses its `error` class and nothing else changes |
| BookingForm.Booking.ClearMessages | v2/js/main.js:253 | every message slot is emptied and nothing else changes |

## Left out

- Scrolling, animation, the navigation bar, the back-to-top button, service-card hover effects, the mobile menu, lazy image loading and the date input's `min` setter. They are presentation code over DOM geometry, CSS strings, the clock and browser observers.
- The timer delays (1500 ms and 1000 ms). The submission's delay is the explicit step `Complete`, which may run at any time while a submission is pending.
- `alert`, `console.log`, `scrollIntoView` and `focus()`. The focus target is returned by `Submit` as an index into the controls, and the logged `formData` is returned as a map.
- The zip-code checker's button text, its `disabled` flag and its alerts. Only its acceptance test is modelled.
- DOM lookups. The form is a sequence of controls in document order, and `querySelector('[name=…]')` is the first control with that name.
- `form.reset()`: it is modelled as restoring each control's default text and checked state.
- Where a control's message element sits. Each control either has its own message slot or has none. `validateField` takes the first `.error-message` inside the control's `.form-group`, so two controls in one group share one element, and checking either overwrites the other's message; the model's per-control slot does not capture that aliasing. A control outside a `.form-group` would make `closest('.form-group')` return null and `validateField` throw; the model does not capture that either.
- The selector `.form-group input.error, …` that picks the focus target. The model takes the first flagged rule-bound control in document order; only `validateField` adds the `error` class to a control.
- `resetForm` when the page has no `#formSuccess` element. The method assumes both the form and the panel exist.
- JavaScript strings are UTF-16 and `.length` counts code units. A Dafny `char` is a Unicode scalar value, so a character outside the Basic Multilingual Plane is one `char` in the model but two units of `.length`. For example, a first name of a single emoji passes `trim().length >= 2` in JavaScript and fails the model's length rule.
- BookingForm.WellFormed: the terms control must be a checkbox. That rule reads `element.checked`, which `validateField` passes only to checkboxes; on any other control the call throws, and the model does not capture that.
- BookingForm.WellFormed: rule names must be unique among the controls. With duplicates `querySelector` would only ever see the first, and the model does not cover that.
- BookingForm.Booking.Submit requires the Idle phase. While submitting, the button is disabled, so there is no submit event; once succeeded, the form is hidden. A second overlapping submission is not modelled.
- BookingForm.Booking.Complete requires a pending submission. The callback only exists after a successful submit.
- Listener order. `Edit` runs the phone formatter's `input` listener before the validation one. Both are added once, and they run in the order they were added.

Two consequences of the code for the reset:

- `resetForm` does not touch the button, its labels or a scheduled completion. A reset during Submitting therefore stays in Submitting, and the pending completion later hides the form again.
- `form.reset()` restores each control's default value and checked state, which need not be empty.
