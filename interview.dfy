/** The chatbot's session state and the button presses that change it:
    "Next" on a question (chatbot.py:82-93), "Start Over" (chatbot.py:20-23,
    128-130) and the summary screen with its "Predict" button
    (chatbot.py:103-122). Each script run that Streamlit makes after a click
    is one method call here.
 */
module Interview {
  import opened Values
  import opened Fields
  import opened Records
  import opened Features

  datatype Role = Bot | User

  /** One transcript entry, `{"role": ..., "text": ...}`. */
  datatype Message = Message(role: Role, text: string)

  /** `st.session_state`: the index of the current question, the answers
      collected so far and the transcript. */
  class Session {
    var step: nat
    var userData: Record
    var messages: seq<Message>

    /** The answers are keyed by the questions already passed, in
        interview order; so is the position at most the number of questions. */
    ghost predicate Valid()
      reads this
    {
      step <= |Steps| && Keys(userData) == StepKeys()[..step]
    }

    /** Every stored answer is one its field's widget can produce and its
        validator passes. The summary screen's re-encoding gives this up. */
    ghost predicate Collected()
      reads this
    {
      Valid() && forall i :: 0 <= i < step ==> Admissible(Steps[i], userData[i].1)
    }

    /** Lines 12-15: a new session starts at the first question with no
        answers and an empty transcript. */
    constructor ()
      ensures step == 0 && userData == [] && messages == []
      ensures Valid() && Collected()
    {
      step := 0;
      userData := [];
      messages := [];
    }

    /** `next_step` (lines 17-18). */
    method NextStep()
      requires step < |Steps|
      modifies this`step
      ensures step == old(step) + 1
    {
      step := step + 1;
    }

    /** `reset` (lines 20-23): whatever the state was, back to the first
        question with no answers and an empty transcript. */
    method Reset()
      modifies this
      ensures step == 0 && userData == [] && messages == []
      ensures Valid() && Collected()
    {
      step := 0;
      userData := [];
      messages := [];
    }

    /** Lines 64-65: the question being asked, or none once all are answered. */
    function CurrentField(): (f: Option<FieldSpec>)
      reads this
      ensures f.Some? <==> step < |Steps|
      ensures f.Some? ==> f.value == Steps[step]
      ensures Valid() && f.Some? ==> f.value.key !in Keys(userData)
    {
      if step < |Steps| then
        assert Valid() ==> forall i :: 0 <= i < step ==> Keys(userData)[i] == StepKeys()[i] != StepKeys()[step];
        Some(Steps[step])
      else None
    }

    /** Lines 82-93: the "Next" button pressed with `raw` in the current
        question's widget. A blank answer adds the generic reply and an answer
        the validator fails adds the field's error text, and neither touches
        anything else; an accepted answer is stored under the field's key,
        echoed as the user's message, and moves to the next question. */
    method Submit(raw: Option<Value>)
      requires Valid() && CurrentField().Some? && FromWidget(Steps[step], raw)
      modifies this
      ensures Valid()
      ensures old(Collected()) ==> Collected()
      ensures !Answered(raw) ==>
                step == old(step) && userData == old(userData)
                && messages == old(messages) + [Message(Bot, BlankText)]
      ensures Answered(raw) && Steps[old(step)].check.Some?
              && !Passes(Steps[old(step)].check.value.rule, raw.value) ==>
                step == old(step) && userData == old(userData)
                && messages == old(messages) + [Message(Bot, Steps[old(step)].check.value.error)]
      ensures Answered(raw) && (Steps[old(step)].check.Some? ==> Passes(Steps[old(step)].check.value.rule, raw.value)) ==>
                step == old(step) + 1
                && userData == old(userData) + [(Steps[old(step)].key, raw.value)]
                && messages == old(messages) + [Message(User, Str(raw.value))]
      ensures step == old(step) + 1 <==> Respond(Steps[old(step)], raw).Accepted?
    {
      var field := Steps[step];
      match Respond(field, raw)
      case Rejected(reply) =>
        messages := messages + [Message(Bot, reply)];
      case Accepted(answer) =>
        StoreAnswer(userData, step, answer);
        ghost var before := userData;
        userData := Put(userData, field.key, answer);
        messages := messages + [Message(User, Str(answer))];
        if old(Collected()) {
          KeepCollected(before, step, answer);
        }
        NextStep();
    }

    /** After the last question every key of the table has an answer. */
    lemma CompleteHasEveryKey()
      requires Valid() && step == |Steps|
      ensures forall k :: k in StepKeys() ==> Get(userData, k).Some?
      ensures Keys(userData) == StepKeys() && HasCategories(userData)
    {
      assert StepKeys()[..step] == StepKeys();
      TableHasCategories(userData);
    }

    /** With every answer admissible, the summary screen finds a listed
        Gender and a listed Home Ownership status, so the record the
        predictor should get carries their codes from the tables. */
    lemma CollectedCodes()
      requires Collected() && step == |Steps|
      ensures HasCategories(userData)
      ensures Get(userData, "Gender").value.Text? && Get(userData, "Gender").value.s in GenderMapping
      ensures Get(userData, "Home Ownership").value.Text?
              && Get(userData, "Home Ownership").value.s in HomeOwnershipMapping
      ensures Get(Assemble(userData), "Gender") == Some(Int(GenderMapping[Get(userData, "Gender").value.s]))
      ensures Get(Assemble(userData), "Home Ownership") ==
                Some(Int(HomeOwnershipMapping[Get(userData, "Home Ownership").value.s]))
    {
      CompleteHasEveryKey();
      assert Admissible(Steps[2], userData[2].1) && Admissible(Steps[10], userData[10].1);
      ListedCodes(userData);
    }

    /** Lines 103-122 as written: each run of the summary screen overwrites
        Gender and Home Ownership in the answers with their codes, builds the
        one-row table, and, when this run was caused by "Predict", shows the
        message for the label the predictor gives on the table without ID and
        ZIP Code. */
    method ShowSummary(predictPressed: bool, predict: Record -> int) returns (features: Record, shown: Option<string>)
      requires Valid() && step == |Steps|
      modifies this`userData
      ensures HasCategories(old(userData)) && userData == Encode(old(userData))
      ensures Valid()
      ensures features == DropIds(userData)
      ensures shown == if predictPressed then Some(Interpret(predict(features))) else None
    {
      CompleteHasEveryKey();
      userData := Put(userData, "Gender", Int(CodeOf(GenderMapping, Get(userData, "Gender").value)));
      userData := Put(userData, "Home Ownership", Int(CodeOf(HomeOwnershipMapping, Get(userData, "Home Ownership").value)));
      features := DropIds(userData);
      if predictPressed {
        shown := Some(Interpret(predict(features)));
      } else {
        shown := None;
      }
    }

    /** The summary screen as evidently intended: the codes are put into a
        record built from the answers, which stay as they were collected, so
        the predictor sees the codes of what was answered on every run. */
    method ShowSummaryFixed(predictPressed: bool, predict: Record -> int) returns (features: Record, shown: Option<string>)
      requires Valid() && step == |Steps|
      ensures HasCategories(userData) && features == Assemble(userData)
      ensures Keys(features) == FeatureKeys
      ensures Get(features, "Gender") == Some(Int(CodeOf(GenderMapping, Get(userData, "Gender").value)))
      ensures Get(features, "Home Ownership") == Some(Int(CodeOf(HomeOwnershipMapping, Get(userData, "Home Ownership").value)))
      ensures shown == if predictPressed then Some(Interpret(predict(features))) else None
    {
      CompleteHasEveryKey();
      AssembleShape(userData);
      features := Assemble(userData);
      if predictPressed {
        shown := Some(Interpret(predict(features)));
      } else {
        shown := None;
      }
    }
  }

  /** Storing the answer to question `n` in answers keyed by the questions
      before it puts a new key at the end. */
  lemma StoreAnswer(d: Record, n: nat, v: Value)
    requires n < |Steps| && Keys(d) == StepKeys()[..n]
    ensures Put(d, Steps[n].key, v) == d + [(Steps[n].key, v)]
    ensures Keys(d + [(Steps[n].key, v)]) == StepKeys()[..n + 1]
  {
    assert Steps[n].key == StepKeys()[n];
    assert Steps[n].key !in Keys(d);
    assert StepKeys()[..n + 1] == StepKeys()[..n] + [Steps[n].key];
    assert Keys(d + [(Steps[n].key, v)]) == Keys(d) + [Steps[n].key];
  }

  /** An admissible answer to question `n` after admissible answers to the
      questions before it leaves every stored answer admissible. */
  lemma KeepCollected(d: Record, n: nat, v: Value)
    requires n < |Steps| && |d| == n
    requires forall i :: 0 <= i < n ==> Admissible(Steps[i], d[i].1)
    requires Admissible(Steps[n], v)
    ensures forall i :: 0 <= i < n + 1 ==> Admissible(Steps[i], (d + [(Steps[n].key, v)])[i].1)
  {
  }

  /** Answers keyed by the table whose Gender and Home Ownership answers
      passed their list validators hold listed texts under both keys. */
  lemma {:induction false} ListedCodes(d: Record)
    requires Keys(d) == StepKeys()
    requires Admissible(Steps[2], d[2].1) && Admissible(Steps[10], d[10].1)
    ensures HasCategories(d)
    ensures Get(d, "Gender").value.Text? && Get(d, "Gender").value.s in GenderMapping
    ensures Get(d, "Home Ownership").value.Text? && Get(d, "Home Ownership").value.s in HomeOwnershipMapping
    ensures Get(Assemble(d), "Gender") == Some(Int(GenderMapping[Get(d, "Gender").value.s]))
    ensures Get(Assemble(d), "Home Ownership") == Some(Int(HomeOwnershipMapping[Get(d, "Home Ownership").value.s]))
  {
    var g, h := d[2].1, d[10].1;
    ListedAnswer(Steps[2], g);
    ListedAnswer(Steps[10], h);
    AnswerAt(d, 2);
    AnswerAt(d, 10);
    assert Get(d, "Gender") == Some(g) && Get(d, "Home Ownership") == Some(h);
    AssembleKeepsAnswers(d, g.s, h.s);
  }

  /** In answers keyed by the table, the answer to question `i` is the one
      a lookup of its key finds. */
  lemma {:induction false} AnswerAt(d: Record, i: nat)
    requires Keys(d) == StepKeys() && i < |Steps|
    ensures Get(d, Steps[i].key) == Some(d[i].1)
  {
    var k := StepKeys()[i];
    assert k !in StepKeys()[..i];
    assert Keys(d)[..i] == StepKeys()[..i];
    GetFirst(d, k, i);
  }

  /** An admissible answer to a field with a list validator is one of the
      listed texts. */
  lemma ListedAnswer(f: FieldSpec, v: Value)
    requires Admissible(f, v) && f.check.Some? && f.check.value.rule.OneOf?
    ensures v.Text? && v.s in f.check.value.rule.options
  {
  }

  /** The runs after the last accepted answer, as written: the rerun that
      `next_step` triggers draws the summary, and the click on "Predict"
      draws it again and predicts. The answers end up encoded twice, and the
      predictor is given code 3 for both categorical features, whatever the
      applicant answered. Only the answers change: the position and the
      transcript stay as they were. */
  method PredictAsWritten(s: Session, predict: Record -> int) returns (features: Record, shown: Option<string>)
    requires s.Valid() && s.step == |Steps|
    modifies s`userData
    ensures s.Valid() && unchanged(s`step, s`messages)
    ensures HasCategories(old(s.userData)) && HasCategories(Encode(old(s.userData)))
    ensures s.userData == Encode(Encode(old(s.userData)))
    ensures features == DropIds(s.userData)
    ensures Get(features, "Gender") == Some(Int(DefaultCode))
    ensures Get(features, "Home Ownership") == Some(Int(DefaultCode))
    ensures shown == Some(Interpret(predict(features)))
  {
    var _, _ := s.ShowSummary(false, predict);
    features, shown := s.ShowSummary(true, predict);
    PredictedRecordAsWritten(old(s.userData));
  }
}
