/**
 * The booking form (v2/js/main.js, `initFormValidation`, `validateField` and
 * `resetForm`): per-field checks on blur and input, the submit handler that
 * re-checks every field and starts a simulated submission, the deferred
 * completion of that submission, and the reset back to the controls' defaults.
 */
module BookingForm {
  import opened Wrappers
  import opened Validators
  import PhoneFormatter

  /** One control of the form that a rule is bound to, by its `name`. */
  datatype Field = Field(
    name: FieldName,
    value: string,
    isCheckbox: bool,        // `type="checkbox"`
    isTel: bool,             // `type="tel"`: the phone formatter listens to it
    checked: bool,
    flagged: bool,           // carries the `error` class
    slot: Option<string>,    // the text of its `.error-message` element, if it has one
    defaultValue: string,    // what `form.reset()` puts back
    defaultChecked: bool)

  predicate FieldPasses(f: Field) {
    Passes(f.name, f.value, f.checked)
  }

  /**
   * The error state of `f` agrees with its rule: flagged exactly when it
   * fails, and its message slot, if any, holds the rule's message when it
   * fails and is empty when it passes.
   */
  predicate Consistent(f: Field) {
    f.flagged == !FieldPasses(f)
    && (f.slot.Some? ==> f.slot.value == if FieldPasses(f) then "" else MessageFor(f.name))
  }

  /** What `validateField` leaves in the control it checks. */
  function Revalidated(f: Field): (g: Field)
    ensures Consistent(g)
    ensures g.name == f.name && g.value == f.value && g.checked == f.checked
    ensures g.isCheckbox == f.isCheckbox && g.isTel == f.isTel
    ensures g.defaultValue == f.defaultValue && g.defaultChecked == f.defaultChecked
    ensures g.slot.Some? == f.slot.Some?
  {
    var ok := FieldPasses(f);
    f.(flagged := !ok, slot := if f.slot.Some? then Some(if ok then "" else MessageFor(f.name)) else None)
  }

  /** Checking a control whose error state already agrees with its rule changes nothing. */
  lemma RevalidatedFixesConsistent(f: Field)
    requires Consistent(f)
    ensures Revalidated(f) == f
  {
  }

  /** What `form.reset()` and the two clearing loops of `resetForm` leave in a control. */
  function Cleared(f: Field): (g: Field)
    ensures !g.flagged && (g.slot.Some? ==> g.slot.value == "") && g.slot.Some? == f.slot.Some?
    ensures g.value == f.defaultValue && g.checked == f.defaultChecked
    ensures g.(value := f.value, checked := f.checked, flagged := f.flagged, slot := f.slot) == f
  {
    f.(value := f.defaultValue, checked := f.defaultChecked, flagged := false,
       slot := if f.slot.Some? then Some("") else None)
  }

  /** `form.querySelector('[name="…"]')`: the first control with that name. */
  function Find(fields: seq<Field>, name: FieldName): (r: Option<nat>)
    ensures r.Some? ==> r.value < |fields| && fields[r.value].name == name
    ensures r.Some? ==> forall j :: 0 <= j < r.value ==> fields[j].name != name
    ensures r.None? ==> forall j :: 0 <= j < |fields| ==> fields[j].name != name
  {
    if fields == [] then None
    else if fields[0].name == name then Some(0)
    else match Find(fields[1..], name)
      case None => None
      case Some(k) => Some(k + 1)
  }

  /** The first control, in document order, that carries the `error` class. */
  function FirstFlagged(fields: seq<Field>): (r: Option<nat>)
    ensures r.Some? ==> r.value < |fields| && fields[r.value].flagged
    ensures r.Some? ==> forall j :: 0 <= j < r.value ==> !fields[j].flagged
    ensures r.None? ==> forall j :: 0 <= j < |fields| ==> !fields[j].flagged
  {
    if fields == [] then None
    else if fields[0].flagged then Some(0)
    else match FirstFlagged(fields[1..])
      case None => None
      case Some(k) => Some(k + 1)
  }

  /**
   * What the page provides: one control per rule name, and the terms control
   * is a checkbox (its rule reads `element.checked`, which is only passed for
   * checkboxes).
   */
  predicate WellFormed(fields: seq<Field>) {
    (forall j, k :: 0 <= j < k < |fields| ==> fields[j].name != fields[k].name)
    && (forall j :: 0 <= j < |fields| && fields[j].name == Terms ==> fields[j].isCheckbox)
  }

  /** Two forms whose controls agree, place by place, on name and type. */
  predicate SameLayout(a: seq<Field>, b: seq<Field>) {
    |a| == |b| && forall k :: 0 <= k < |a| ==> a[k].name == b[k].name && a[k].isCheckbox == b[k].isCheckbox
  }

  /** Well-formedness depends on the layout alone. */
  lemma SameLayoutWellFormed(a: seq<Field>, b: seq<Field>)
    requires WellFormed(a) && SameLayout(a, b)
    ensures WellFormed(b)
  {
  }

  /** The names of the controls present in the form. */
  function Names(fields: seq<Field>): (ns: set<FieldName>) {
    set j | 0 <= j < |fields| :: fields[j].name
  }

  /** In a well-formed form, looking a control up by its own name finds it. */
  lemma FindByName(fields: seq<Field>, j: nat)
    requires WellFormed(fields) && j < |fields|
    ensures Find(fields, fields[j].name) == Some(j)
  {
  }

  /** The lookup finds a control exactly for the names present. */
  lemma FindPresent(fields: seq<Field>, name: FieldName)
    ensures Find(fields, name).Some? <==> name in Names(fields)
  {
    if name in Names(fields) {
      var j :| 0 <= j < |fields| && fields[j].name == name;
    }
  }

  /**
   * The controls after the submit loop has handled the first `k` names of the
   * rule table: those re-checked, the rest as they were.
   */
  function CheckedUpTo(before: seq<Field>, k: nat): (r: seq<Field>)
    ensures |r| == |before|
    ensures forall j :: 0 <= j < |r| ==> r[j].name == before[j].name
  {
    seq(|before|, j requires 0 <= j < |before| =>
      if Rank(before[j].name) < k then Revalidated(before[j]) else before[j])
  }

  /** Every control among the first `k` names of the rule table passes. */
  predicate PassUpTo(before: seq<Field>, k: nat) {
    forall j :: 0 <= j < |before| && Rank(before[j].name) < k ==> FieldPasses(before[j])
  }

  /** `formData` after the submit loop has handled the names `names`, in that order. */
  function SnapshotOf(before: seq<Field>, names: seq<FieldName>): (m: map<FieldName, string>) {
    if names == [] then map[]
    else
      var name := names[|names| - 1];
      var prev := SnapshotOf(before, names[..|names| - 1]);
      match Find(before, name)
      case None => prev
      case Some(i) => prev[name := before[i].value]
  }

  /** Before its turn, a control is as the submit handler found it. */
  lemma NotYetChecked(before: seq<Field>, k: nat, i: nat)
    requires k < |RULE_ORDER| && i < |before| && before[i].name == RULE_ORDER[k]
    ensures CheckedUpTo(before, k)[i] == before[i]
  {
    RankOfPosition(k);
  }

  /** The turn of a name whose control is present re-checks that control and no other. */
  lemma StepPresentChecks(before: seq<Field>, k: nat, i: nat)
    requires WellFormed(before) && k < |RULE_ORDER| && i < |before| && before[i].name == RULE_ORDER[k]
    ensures CheckedUpTo(before, k + 1) == CheckedUpTo(before, k)[i := Revalidated(before[i])]
  {
    RankOfPosition(k);
    var a, b := CheckedUpTo(before, k + 1), CheckedUpTo(before, k)[i := Revalidated(before[i])];
    forall j | 0 <= j < |before| ensures a[j] == b[j] {
      if j != i {
        assert before[j].name != before[i].name;
        assert RULE_ORDER[Rank(before[j].name)] == before[j].name;
        assert Rank(before[j].name) != k;
      }
    }
    assert a == b;
  }

  /** The turn of a name whose control is present adds that control's verdict. */
  lemma StepPresentVerdict(before: seq<Field>, k: nat, i: nat)
    requires WellFormed(before) && k < |RULE_ORDER| && i < |before| && before[i].name == RULE_ORDER[k]
    ensures PassUpTo(before, k + 1) == (PassUpTo(before, k) && FieldPasses(before[i]))
  {
    forall j | 0 <= j < |before| && j != i ensures Rank(before[j].name) < k + 1 <==> Rank(before[j].name) < k {
      assert before[j].name != before[i].name;
      assert RULE_ORDER[Rank(before[j].name)] == before[j].name;
    }
  }

  /** The turn of a name with no control in the form changes nothing. */
  lemma StepAbsent(before: seq<Field>, k: nat)
    requires k < |RULE_ORDER| && forall j :: 0 <= j < |before| ==> before[j].name != RULE_ORDER[k]
    ensures CheckedUpTo(before, k + 1) == CheckedUpTo(before, k)
    ensures PassUpTo(before, k + 1) == PassUpTo(before, k)
  {
    forall j | 0 <= j < |before| ensures Rank(before[j].name) != k {
      assert RULE_ORDER[Rank(before[j].name)] == before[j].name;
    }
  }

  /** The turn of a name whose control is present records that control's value. */
  lemma SnapshotStepPresent(before: seq<Field>, names: seq<FieldName>, name: FieldName, i: nat)
    requires Find(before, name) == Some(i)
    ensures SnapshotOf(before, names + [name]) == SnapshotOf(before, names)[name := before[i].value]
  {
    assert (names + [name])[..|names|] == names;
  }

  /** The turn of a name with no control records nothing. */
  lemma SnapshotStepAbsent(before: seq<Field>, names: seq<FieldName>, name: FieldName)
    requires Find(before, name).None?
    ensures SnapshotOf(before, names + [name]) == SnapshotOf(before, names)
  {
    assert (names + [name])[..|names|] == names;
  }

  /** Before the first turn, no control has been re-checked. */
  lemma CheckedNone(before: seq<Field>)
    ensures CheckedUpTo(before, 0) == before
  {
  }

  /** `after` is `before` with every control re-checked by `validateField`. */
  predicate Rechecked(before: seq<Field>, after: seq<Field>) {
    |after| == |before| && forall j :: 0 <= j < |before| ==> after[j] == Revalidated(before[j])
  }

  /** Every control passes its rule. */
  predicate AllPass(fields: seq<Field>) {
    forall j :: 0 <= j < |fields| ==> FieldPasses(fields[j])
  }

  /** The `formData` object the submit listener builds from the controls `fields`. */
  function FormData(fields: seq<Field>): (m: map<FieldName, string>) {
    SnapshotOf(fields, RULE_ORDER)
  }

  /**
   * After every control is re-checked, each is flagged exactly when it fails
   * its rule, and its message slot agrees with the verdict.
   */
  lemma RecheckedFlagsFailures(before: seq<Field>, after: seq<Field>)
    requires Rechecked(before, after)
    ensures forall j :: 0 <= j < |after| ==> Consistent(after[j]) && after[j].flagged == !FieldPasses(before[j])
  {
  }

  /** When some control fails, re-checking leaves at least one control flagged. */
  lemma FlaggedAfterFailure(before: seq<Field>, after: seq<Field>)
    requires Rechecked(before, after) && !AllPass(before)
    ensures FirstFlagged(after).Some?
  {
    var j :| 0 <= j < |before| && !FieldPasses(before[j]);
    assert after[j].flagged;
  }

  /** Once the loop has handled every name, every control has been re-checked. */
  lemma CheckedAll(before: seq<Field>)
    ensures Rechecked(before, CheckedUpTo(before, |RULE_ORDER|))
  {
  }

  /** Once the loop has handled every name, the verdict covers every control. */
  lemma PassAll(before: seq<Field>)
    ensures PassUpTo(before, |RULE_ORDER|) == AllPass(before)
  {
  }

  /**
   * After the names `names`, `formData` holds `n` exactly when `n` is among
   * them and has a control, and then with the value of the control found for it.
   */
  lemma {:induction false} SnapshotOfHas(before: seq<Field>, names: seq<FieldName>, n: FieldName)
    ensures n in SnapshotOf(before, names) <==> n in names && Find(before, n).Some?
    ensures n in SnapshotOf(before, names) ==> SnapshotOf(before, names)[n] == before[Find(before, n).value].value
  {
    if names != [] {
      var init := names[..|names| - 1];
      SnapshotOfHas(before, init, n);
      assert names == init + [names[|names| - 1]];
    }
  }

  /** `formData` maps the name of each control to its value, and holds nothing else. */
  lemma FormDataContents(before: seq<Field>)
    requires WellFormed(before)
    ensures FormData(before).Keys == Names(before)
    ensures forall j :: 0 <= j < |before| ==> FormData(before)[before[j].name] == before[j].value
  {
    var data := FormData(before);
    forall n ensures n in data <==> n in Names(before) {
      SnapshotOfHas(before, RULE_ORDER, n);
      assert RULE_ORDER[Rank(n)] == n;
      FindPresent(before, n);
    }
    forall j | 0 <= j < |before| ensures data[before[j].name] == before[j].value {
      SnapshotOfHas(before, RULE_ORDER, before[j].name);
      assert RULE_ORDER[Rank(before[j].name)] == before[j].name;
      FindByName(before, j);
      FindPresent(before, before[j].name);
    }
  }

  /** The three stages of a submission. */
  datatype Phase = Idle | Submitting | Succeeded

  class Booking {
    var fields: seq<Field>     // the rule-bound controls, in document order
    var formShown: bool        // the form's `display`
    var successShown: bool     // the `#formSuccess` panel's `display`
    var buttonDisabled: bool   // the submit button's `disabled`
    var labelShown: bool       // the `.btn-text` label's `display`
    var loadingShown: bool     // the `.btn-loading` label's `display`
    var pending: bool          // the completion callback is scheduled and has not run

    /**
     * While a completion is pending the form is shown with the loading label
     * on a disabled button; otherwise the button is enabled with its default
     * label, and exactly one of the form and the success panel is shown.
     */
    ghost predicate Valid()
      reads this
    {
      WellFormed(fields)
      && (pending ==> formShown && !successShown && buttonDisabled && !labelShown && loadingShown)
      && (!pending ==> formShown != successShown && !buttonDisabled && labelShown && !loadingShown)
    }

    function CurrentPhase(): (p: Phase)
      reads this
    {
      if pending then Submitting else if successShown then Succeeded else Idle
    }

    /** The page as loaded: the form shown, the success panel hidden, the button enabled. */
    constructor (fields: seq<Field>)
      requires WellFormed(fields)
      ensures Valid() && CurrentPhase() == Idle
      ensures this.fields == fields && formShown && !successShown
    {
      this.fields := fields;
      formShown, successShown := true, false;
      buttonDisabled, labelShown, loadingShown := false, true, false;
      pending := false;
    }

    /** `validateField`: checks control `i`, sets its error state, and reports the verdict. */
    method ValidateField(i: nat) returns (ok: bool)
      requires Valid() && i < |fields|
      modifies this`fields
      ensures Valid()
      ensures ok == FieldPasses(old(fields)[i])
      ensures fields == old(fields)[i := Revalidated(old(fields)[i])]
    {
      var f := fields[i];
      ok := Passes(f.name, f.value, f.checked);
      if !ok {
        fields := fields[i := f.(flagged := true,
          slot := if f.slot.Some? then Some(MessageFor(f.name)) else None)];
      } else {
        fields := fields[i := f.(flagged := false,
          slot := if f.slot.Some? then Some("") else None)];
      }
    }

    /** The `blur` listener: always re-checks the control. */
    method OnBlur(i: nat)
      requires Valid() && i < |fields|
      modifies this`fields
      ensures Valid()
      ensures fields == old(fields)[i := Revalidated(old(fields)[i])]
    {
      var _ := ValidateField(i);
    }

    /** The validation `input` listener: re-checks the control only if it is already flagged. */
    method OnInput(i: nat)
      requires Valid() && i < |fields|
      modifies this`fields
      ensures Valid()
      ensures fields == if old(fields)[i].flagged then old(fields)[i := Revalidated(old(fields)[i])] else old(fields)
    {
      if fields[i].flagged {
        var _ := ValidateField(i);
      }
    }

    /** The phone formatter's `input` listener on a `type="tel"` control. */
    method OnTelInput(i: nat)
      requires Valid() && i < |fields| && fields[i].isTel
      modifies this`fields
      ensures Valid()
      ensures fields == old(fields)[i := old(fields)[i].(value := PhoneFormatter.Format(old(fields)[i].value))]
    {
      fields := fields[i := fields[i].(value := PhoneFormatter.Format(fields[i].value))];
    }

    /**
     * A user edit of control `i`: the browser stores the new text and checked
     * state, then runs the `input` listeners in the order they were added (the
     * phone formatter's, added when the script ran, before the validation one).
     */
    method Edit(i: nat, value: string, checked: bool)
      requires Valid() && i < |fields|
      modifies this`fields
      ensures Valid()
      ensures var typed := old(fields)[i].(checked := checked,
                value := if old(fields)[i].isTel then PhoneFormatter.Format(value) else value);
              fields == old(fields)[i := if typed.flagged then Revalidated(typed) else typed]
    {
      fields := fields[i := fields[i].(value := value, checked := checked)];
      if fields[i].isTel {
        OnTelInput(i);
      }
      OnInput(i);
    }

    /**
     * The `submit` listener. Every control is re-checked, in the order of the
     * rule table and without stopping at the first failure, and its value is
     * copied into `data`. When all pass, the submission starts; otherwise
     * nothing else changes and `focus` is the first flagged control.
     */
    method Submit() returns (valid: bool, data: map<FieldName, string>, focus: Option<nat>)
      requires Valid() && CurrentPhase() == Idle
      modifies this
      ensures Valid()
      ensures Rechecked(old(fields), fields)
      ensures valid == AllPass(old(fields))
      ensures data == FormData(old(fields))
      ensures valid ==> CurrentPhase() == Submitting && buttonDisabled && !labelShown && loadingShown
      ensures valid ==> formShown && !successShown && focus == None
      ensures !valid ==> CurrentPhase() == Idle && formShown && !successShown && !buttonDisabled
      ensures !valid ==> labelShown && !loadingShown
      ensures !valid ==> focus == FirstFlagged(fields) && focus.Some?
    {
      ghost var before := fields;
      valid, data := CheckEveryField();
      ghost var after := fields;
      if valid {
        labelShown, loadingShown, buttonDisabled := false, true, true;
        pending := true;
        focus := None;
      } else {
        FlaggedAfterFailure(before, after);
        focus := FirstFlagged(fields);
      }
      assert fields == after;
    }

    /**
     * The loop of the `submit` listener: `validateField` on the control of
     * each name of the rule table, in table order, and `formData` built from
     * the same controls.
     */
    method CheckEveryField() returns (valid: bool, data: map<FieldName, string>)
      requires Valid()
      modifies this`fields
      ensures Valid()
      ensures Rechecked(old(fields), fields)
      ensures valid == AllPass(old(fields))
      ensures data == FormData(old(fields))
    {
      ghost var before := fields;
      valid := true;
      data := map[];
      CheckedNone(before);
      for k := 0 to |RULE_ORDER|
        invariant Valid()
        invariant fields == CheckedUpTo(before, k)
        invariant valid == PassUpTo(before, k)
        invariant data == SnapshotOf(before, RULE_ORDER[..k])
      {
        valid, data := CheckName(k, before, valid, data);
      }
      CheckedAll(before);
      PassAll(before);
      assert RULE_ORDER[..|RULE_ORDER|] == RULE_ORDER;
    }

    /** One turn of the loop of the `submit` listener: the `k`-th name of the rule table. */
    method CheckName(k: nat, ghost before: seq<Field>, valid: bool, data: map<FieldName, string>)
      returns (valid': bool, data': map<FieldName, string>)
      requires Valid() && k < |RULE_ORDER| && WellFormed(before)
      requires fields == CheckedUpTo(before, k)
      requires valid == PassUpTo(before, k) && data == SnapshotOf(before, RULE_ORDER[..k])
      modifies this`fields
      ensures Valid()
      ensures fields == CheckedUpTo(before, k + 1)
      ensures valid' == PassUpTo(before, k + 1) && data' == SnapshotOf(before, RULE_ORDER[..k + 1])
    {
      var name := RULE_ORDER[k];
      var found := Find(fields, name);
      valid', data' := valid, data;
      if found.Some? {
        var i := found.value;
        NotYetChecked(before, k, i);
        StepPresentChecks(before, k, i);
        StepPresentVerdict(before, k, i);
        var fieldValid := ValidateField(i);
        if !fieldValid {
          valid' := false;
        }
        FindByName(before, i);
        OrderPrefixStep(k);
        SnapshotStepPresent(before, RULE_ORDER[..k], name, i);
        data' := data[name := fields[i].value];
      } else {
        assert forall j :: 0 <= j < |before| ==> before[j].name != name by {
          forall j | 0 <= j < |before| ensures before[j].name != name {
            assert fields[j].name == before[j].name;
          }
        }
        StepAbsent(before, k);
        OrderPrefixStep(k);
        SnapshotStepAbsent(before, RULE_ORDER[..k], name);
      }
    }

    /** The deferred completion: the form gives way to the success panel and the button is restored. */
    method Complete()
      requires Valid() && CurrentPhase() == Submitting
      modifies this
      ensures Valid() && CurrentPhase() == Succeeded
      ensures !formShown && successShown
      ensures labelShown && !loadingShown && !buttonDisabled
      ensures fields == old(fields)
    {
      formShown, successShown := false, true;
      labelShown, loadingShown, buttonDisabled := true, false, false;
      pending := false;
    }

    /**
     * `resetForm`: every control back to its default, nothing flagged, every
     * message slot empty, the form shown and the success panel hidden. The
     * button is not touched, so a completion still pending stays pending.
     */
    method ResetForm()
      requires Valid()
      modifies this
      ensures Valid()
      ensures |fields| == |old(fields)| && forall j :: 0 <= j < |fields| ==> fields[j] == Cleared(old(fields)[j])
      ensures formShown && !successShown
      ensures pending == old(pending) && buttonDisabled == old(buttonDisabled)
      ensures labelShown == old(labelShown) && loadingShown == old(loadingShown)
      ensures CurrentPhase() == if old(pending) then Submitting else Idle
    {
      var before := fields;
      fields := seq(|before|, j requires 0 <= j < |before| =>
        before[j].(value := before[j].defaultValue, checked := before[j].defaultChecked));
      SameLayoutWellFormed(before, fields);
      formShown, successShown := true, false;
      ClearFlags();
      ClearMessages();
    }

    /** `form.querySelectorAll('.error').forEach(…)`: the `error` class off every control. */
    method ClearFlags()
      requires WellFormed(fields)
      modifies this`fields
      ensures WellFormed(fields)
      ensures |fields| == |old(fields)| && forall k :: 0 <= k < |fields| ==> fields[k] == old(fields)[k].(flagged := false)
    {
      ghost var before := fields;
      for j := 0 to |fields|
        invariant |fields| == |before|
        invariant forall k :: 0 <= k < |fields| ==>
          fields[k] == before[k].(flagged := if k < j then false else before[k].flagged)
      {
        fields := fields[j := fields[j].(flagged := false)];
      }
      SameLayoutWellFormed(before, fields);
    }

    /** `form.querySelectorAll('.error-message').forEach(…)`: every message slot emptied. */
    method ClearMessages()
      requires WellFormed(fields)
      modifies this`fields
      ensures WellFormed(fields)
      ensures |fields| == |old(fields)| && forall k :: 0 <= k < |fields| ==>
        fields[k] == old(fields)[k].(slot := if old(fields)[k].slot.Some? then Some("") else None)
    {
      ghost var before := fields;
      for j := 0 to |fields|
        invariant |fields| == |before|
        invariant forall k :: 0 <= k < |fields| ==>
          fields[k] == before[k].(slot := if k < j && before[k].slot.Some? then Some("") else before[k].slot)
      {
        if fields[j].slot.Some? {
          fields := fields[j := fields[j].(slot := Some(""))];
        }
      }
      SameLayoutWellFormed(before, fields);
    }
  }
}
