/** The interview's fixed table of fields (chatbot.py:26-42) and the decision
    the "Next" button makes on one raw answer (chatbot.py:83-93).
 */
module Fields {
  import opened Values

  /** The validator lambdas of the table, as data. */
  datatype Rule =
    | Digits                          // x.isdigit()
    | DigitsOfLength(n: nat)          // x.isdigit() and len(x) == n
    | DigitsInRange(lo: nat, hi: nat) // x.isdigit() and lo <= int(x) <= hi
    | OneOf(options: seq<string>)     // x in [...]

  /** A field's "validation" entry together with its "error" text. */
  datatype Check = Check(rule: Rule, error: string)

  /** The widget that asks for the field, with the min_value, max_value and
      value parameters of a number box. */
  datatype Kind =
    | TextInput
    | IntInput(min: int, max: int, default: int)
    | FloatInput(fmin: real, fmax: real, fdefault: real)

  datatype FieldSpec = FieldSpec(prompt: string, key: string, kind: Kind, check: Option<Check>)

  /** The generic reply to a missing or empty answer. */
  const BlankText := "Please provide a valid response."

  const Steps: seq<FieldSpec> := [
    FieldSpec("Please enter your ID:", "ID", TextInput,
              Some(Check(Digits, "ID must be a number."))),
    FieldSpec("Please enter your age:", "Age", IntInput(16, 130, 25), None),
    FieldSpec("Please enter your gender (M/F/O):", "Gender", TextInput,
              Some(Check(OneOf(["M", "F", "O"]), "Gender must be M, F, or O."))),
    FieldSpec("Please enter your experience (years):", "Experience", IntInput(0, 50, 1), None),
    FieldSpec("Please enter your income (in 1000s) per annum:", "Income", IntInput(0, 500, 49), None),
    FieldSpec("Please enter your ZIP Code:", "ZIP Code", TextInput,
              Some(Check(DigitsOfLength(5), "ZIP Code must be a 5-digit number."))),
    FieldSpec("Please select your family size:", "Family", TextInput,
              Some(Check(DigitsInRange(1, 4), "Family size must be between 1 and 4."))),
    FieldSpec("Please enter your CCAvg (Credit Card Average Usage):", "CCAvg", FloatInput(0.0, 20.0, 1.6), None),
    FieldSpec("Please select your education level (1/2/3):", "Education", TextInput,
              Some(Check(OneOf(["1", "2", "3"]), "Education level must be 1, 2, or 3."))),
    FieldSpec("Please enter your mortgage value:", "Mortgage", IntInput(0, 1000, 0), None),
    FieldSpec("Please select your home ownership status (Home Owner/Rent/Home Mortgage):", "Home Ownership", TextInput,
              Some(Check(OneOf(["Home Owner", "Rent", "Home Mortgage"]),
                         "Home Ownership must be Home Owner, Rent, or Home Mortgage."))),
    FieldSpec("Do you have a securities account? (0 for No, 1 for Yes):", "Securities Account", TextInput,
              Some(Check(OneOf(["0", "1"]), "Securities Account must be 0 or 1."))),
    FieldSpec("Do you have a CD account? (0 for No, 1 for Yes):", "CD Account", TextInput,
              Some(Check(OneOf(["0", "1"]), "CD Account must be 0 or 1."))),
    FieldSpec("Do you use online banking? (0 for No, 1 for Yes):", "Online", TextInput,
              Some(Check(OneOf(["0", "1"]), "Online Banking must be 0 or 1."))),
    FieldSpec("Do you have a credit card? (0 for No, 1 for Yes):", "CreditCard", TextInput,
              Some(Check(OneOf(["0", "1"]), "Credit Card must be 0 or 1.")))
  ]

  /** The keys of the table, in interview order; no two fields share a
      key, so every answer gets an entry of its own. */
  function StepKeys(): (ks: seq<string>)
    ensures |ks| == |Steps|
    ensures forall i :: 0 <= i < |Steps| ==> ks[i] == Steps[i].key
    ensures forall i, j :: 0 <= i < j < |ks| ==> ks[i] != ks[j]
  {
    var ks := seq(|Steps|, i requires 0 <= i < |Steps| => Steps[i].key);
    assert ks == ["ID", "Age", "Gender", "Experience", "Income", "ZIP Code", "Family", "CCAvg",
                  "Education", "Mortgage", "Home Ownership", "Securities Account", "CD Account",
                  "Online", "CreditCard"];
    ks
  }

  /** Whether a validator lambda returns true on the text it is given: the
      numeric rules pass only non-empty ASCII digit strings, a list rule
      only the strings listed. */
  function Holds(rule: Rule, s: string): (ok: bool)
    ensures ok && !rule.OneOf? ==> IsDigits(s)
    ensures ok && rule.OneOf? ==> s in rule.options
    ensures ok && rule.DigitsOfLength? ==> |s| == rule.n
    ensures ok && rule.DigitsInRange? ==> rule.lo <= ParseDigits(s) <= rule.hi
  {
    match rule
    case Digits => IsDigits(s)
    case DigitsOfLength(n) => IsDigits(s) && |s| == n
    case DigitsInRange(lo, hi) => IsDigits(s) && lo <= ParseDigits(s) <= hi
    case OneOf(options) => s in options
  }

  /** Validators are only ever applied to the text of a text box: no number
      passes one. */
  function Passes(rule: Rule, v: Value): (ok: bool)
    ensures ok ==> v.Text?
    ensures v.Text? ==> (ok <==> Holds(rule, v.s))
  {
    v.Text? && Holds(rule, v.s)
  }

  /** `user_input is not None and str(user_input) != ""`: an integer is
      always an answer, the empty text never is. */
  function Answered(raw: Option<Value>): (ok: bool)
    ensures ok ==> raw.Some?
    ensures raw.Some? && raw.value.Int? ==> ok
    ensures raw.Some? && raw.value.Text? ==> (ok <==> raw.value.s != "")
  {
    raw.Some? && Str(raw.value) != ""
  }

  /** What the field's widget can hand to the "Next" branch: the text box
      returns text, an integer box an integer clamped to its bounds, the float
      box a float, never with empty text. `None` stays possible, as line 83
      tests for it. */
  predicate FromWidget(f: FieldSpec, raw: Option<Value>)
  {
    raw.None? ||
    match f.kind
    case TextInput => raw.value.Text?
    case IntInput(lo, hi, _) => raw.value.Int? && lo <= raw.value.i <= hi
    case FloatInput(_, _, _) => raw.value.Float? && raw.value.shown != ""
  }

  /** An answer the interview may store for the field: the widget produced
      it, it is not blank and the field's validator, if any, passes it. */
  predicate Admissible(f: FieldSpec, v: Value)
  {
    FromWidget(f, Some(v)) && Str(v) != "" && (f.check.Some? ==> Passes(f.check.value.rule, v))
  }

  datatype Outcome = Accepted(value: Value) | Rejected(message: string)

  /** The decision of the "Next" branch on one raw answer: a blank answer
      gets the generic reply, an answer the field's validator fails gets that
      field's error text, and any other answer is accepted as it is. */
  function Respond(f: FieldSpec, raw: Option<Value>): (o: Outcome)
    ensures o.Accepted? ==> raw == Some(o.value)
    ensures FromWidget(f, raw) ==> (o.Accepted? <==> raw.Some? && Admissible(f, raw.value))
  {
    if !Answered(raw) then Rejected(BlankText)
    else if f.check.Some? && !Passes(f.check.value.rule, raw.value) then Rejected(f.check.value.error)
    else Accepted(raw.value)
  }

  /** Whether the text `s` typed into the box of the field at position `i`
      is accepted. */
  predicate AcceptsText(i: nat, s: string)
    requires i < |Steps|
  {
    Respond(Steps[i], Some(Text(s))).Accepted?
  }

  /** The reply is the generic one exactly when the answer is blank: no
      field's own error text coincides with it. */
  lemma BlankReplyOnlyForBlank(f: FieldSpec, raw: Option<Value>)
    requires f in Steps
    ensures Respond(f, raw) == Rejected(BlankText) <==> !Answered(raw)
  {
    if Answered(raw) && f.check.Some? {
      assert f.check.value.error != BlankText;
    }
  }

  /** A rejected non-blank answer is answered with the field's own error text. */
  lemma InvalidGetsFieldError(f: FieldSpec, raw: Option<Value>)
    requires Answered(raw) && f.check.Some? && !Passes(f.check.value.rule, raw.value)
    ensures Respond(f, raw) == Rejected(f.check.value.error)
  {
  }

  /** Number boxes have no validator: every non-blank number they return is
      accepted, and an integer is never blank. */
  lemma NumberFieldsAcceptAll(f: FieldSpec, raw: Option<Value>)
    requires f in Steps && !f.kind.TextInput? && raw.Some? && FromWidget(f, raw)
    ensures Answered(raw) ==> Respond(f, raw) == Accepted(raw.value)
    ensures raw.value.Int? ==> Respond(f, raw) == Accepted(raw.value)
  {
  }

  /** The ID box accepts the non-empty all-digit strings. */
  lemma IdRule(s: string)
    ensures Steps[0].key == "ID"
    ensures AcceptsText(0, s) <==> |s| > 0 && forall i :: 0 <= i < |s| ==> '0' <= s[i] <= '9'
  {
  }

  /** The ZIP Code box accepts exactly the five-digit strings. */
  lemma ZipRule(s: string)
    ensures Steps[5].key == "ZIP Code"
    ensures AcceptsText(5, s) <==> |s| == 5 && forall i :: 0 <= i < |s| ==> '0' <= s[i] <= '9'
  {
  }

  /** The family box accepts a digit 1 to 4, possibly after leading zeros
      ("2", "02", "0004"), and nothing else. */
  lemma {:induction false} FamilyRule(s: string)
    ensures Steps[6].key == "Family"
    ensures AcceptsText(6, s) <==>
              |s| > 0 && (forall i :: 0 <= i < |s| - 1 ==> s[i] == '0') && '1' <= s[|s| - 1] <= '4'
  {
    if IsDigits(s) {
      SmallValue(s, 1, 4);
    }
  }

  /** The gender box accepts exactly M, F and O. */
  lemma GenderRule(s: string)
    ensures Steps[2].key == "Gender"
    ensures AcceptsText(2, s) <==> s == "M" || s == "F" || s == "O"
  {
  }

  /** The education box accepts exactly 1, 2 and 3. */
  lemma EducationRule(s: string)
    ensures Steps[8].key == "Education"
    ensures AcceptsText(8, s) <==> s == "1" || s == "2" || s == "3"
  {
  }

  /** The home ownership box accepts exactly its three listed statuses. */
  lemma HomeOwnershipRule(s: string)
    ensures Steps[10].key == "Home Ownership"
    ensures AcceptsText(10, s) <==> s == "Home Owner" || s == "Rent" || s == "Home Mortgage"
  {
  }

  /** The four yes/no boxes accept exactly 0 and 1. */
  lemma FlagRules(s: string)
    ensures Steps[11].key == "Securities Account"
    ensures AcceptsText(11, s) <==> s == "0" || s == "1"
    ensures Steps[12].key == "CD Account"
    ensures AcceptsText(12, s) <==> s == "0" || s == "1"
    ensures Steps[13].key == "Online"
    ensures AcceptsText(13, s) <==> s == "0" || s == "1"
    ensures Steps[14].key == "CreditCard"
    ensures AcceptsText(14, s) <==> s == "0" || s == "1"
  {
  }
}
