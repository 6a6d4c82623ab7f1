/** What follows the interview: re-encoding the two categorical answers as
    integer codes (chatbot.py:45-46, 106-107), dropping the identifying
    columns before the predictor sees the record (chatbot.py:114), and
    turning the predicted label into a message (chatbot.py:117-122).
 */
module Features {
  import opened Values
  import opened Fields
  import opened Records

  const GenderMapping: map<string, int> := map["M" := 1, "F" := 2, "O" := 3]
  const HomeOwnershipMapping: map<string, int> := map["Home Owner" := 1, "Rent" := 2, "Home Mortgage" := 3]

  /** The code `.get(..., 3)` falls back to for a value the table lacks. */
  const DefaultCode := 3

  /** The columns that identify the applicant and are kept from the predictor. */
  const IdColumns: set<string> := {"ID", "ZIP Code"}

  /** The columns the predictor is given, in the order it is given them. */
  const FeatureKeys: seq<string> := ["Age", "Gender", "Experience", "Income", "Family", "CCAvg", "Education",
                                     "Mortgage", "Home Ownership", "Securities Account", "CD Account",
                                     "Online", "CreditCard"]

  /** `mapping.get(v, 3)`: only a string key of the table has a code of its
      own; anything else, an integer code included, gets the default. */
  function CodeOf(mapping: map<string, int>, v: Value): (c: int)
    ensures v.Text? && v.s in mapping ==> c == mapping[v.s]
    ensures !v.Text? ==> c == DefaultCode
    ensures c == DefaultCode || c in mapping.Values
  {
    if v.Text? && v.s in mapping then mapping[v.s] else DefaultCode
  }

  /** Gender is coded M, F, O as 1, 2, 3; anything else, an integer
      included, as 3. */
  lemma GenderCodes(v: Value)
    ensures CodeOf(GenderMapping, v) == (if v == Text("M") then 1 else if v == Text("F") then 2 else 3)
  {
  }

  /** Home ownership is coded Home Owner, Rent, Home Mortgage as 1, 2, 3;
      anything else, an integer included, as 3. */
  lemma HomeOwnershipCodes(v: Value)
    ensures CodeOf(HomeOwnershipMapping, v) ==
              (if v == Text("Home Owner") then 1 else if v == Text("Rent") then 2 else 3)
  {
  }

  /** A record that holds both categorical columns. */
  predicate HasCategories(d: Record)
  {
    Get(d, "Gender").Some? && Get(d, "Home Ownership").Some?
  }

  /** Lines 106-107: overwrite the Gender and Home Ownership entries of the
      answers with their codes. */
  function Encode(d: Record): (r: Record)
    requires HasCategories(d)
    ensures Keys(r) == Keys(d)
    ensures Get(r, "Gender") == Some(Int(CodeOf(GenderMapping, Get(d, "Gender").value)))
    ensures Get(r, "Home Ownership") == Some(Int(CodeOf(HomeOwnershipMapping, Get(d, "Home Ownership").value)))
    ensures forall k :: k != "Gender" && k != "Home Ownership" ==> Get(r, k) == Get(d, k)
  {
    var g := Put(d, "Gender", Int(CodeOf(GenderMapping, Get(d, "Gender").value)));
    Put(g, "Home Ownership", Int(CodeOf(HomeOwnershipMapping, Get(g, "Home Ownership").value)))
  }

  /** Line 114: the columns handed to the predictor. */
  function DropIds(d: Record): (r: Record)
    ensures Keys(r) == Without(Keys(d), IdColumns)
    ensures Get(r, "ID").None? && Get(r, "ZIP Code").None?
    ensures forall k :: k !in IdColumns ==> Get(r, k) == Get(d, k)
  {
    Drop(d, IdColumns)
  }

  /** The interview's keys are ID, four features, ZIP Code and nine more
      features. */
  lemma StepKeysLayout()
    ensures StepKeys() == ["ID"] + FeatureKeys[..4] + ["ZIP Code"] + FeatureKeys[4..]
  {
    assert StepKeys() == ["ID", "Age", "Gender", "Experience", "Income", "ZIP Code", "Family", "CCAvg",
                          "Education", "Mortgage", "Home Ownership", "Securities Account", "CD Account",
                          "Online", "CreditCard"];
  }

  /** No feature column is an identifying column. */
  lemma FeaturesAreNotIds()
    ensures forall i :: 0 <= i < |FeatureKeys| ==> FeatureKeys[i] !in IdColumns
  {
  }

  /** Dropping ID and ZIP Code from ID, `front`, ZIP Code, `back` leaves
      `front` followed by `back`. */
  lemma DropIdsAround(front: seq<string>, back: seq<string>)
    requires forall i :: 0 <= i < |front| ==> front[i] !in IdColumns
    requires forall i :: 0 <= i < |back| ==> back[i] !in IdColumns
    ensures Without(["ID"] + front + ["ZIP Code"] + back, IdColumns) == front + back
  {
    var id, zip := ["ID"], ["ZIP Code"];
    assert Without(id, IdColumns) == [] && Without(zip, IdColumns) == [];
    WithoutNone(front, IdColumns);
    WithoutNone(back, IdColumns);
    WithoutAppend(id, front, IdColumns);
    assert Without(id + front, IdColumns) == front by {
      assert [] + front == front;
    }
    WithoutAppend(id + front, zip, IdColumns);
    assert Without(id + front + zip, IdColumns) == front by {
      assert front + [] == front;
    }
    WithoutAppend(id + front + zip, back, IdColumns);
  }

  /** Taking the identifying columns out of the interview's keys leaves the
      predictor's feature columns, in interview order. */
  lemma FeatureColumns()
    ensures Without(StepKeys(), IdColumns) == FeatureKeys
    ensures forall k :: k in FeatureKeys <==> k in StepKeys() && k !in IdColumns
  {
    StepKeysLayout();
    FeaturesAreNotIds();
    WithoutMembers(StepKeys(), IdColumns);
    DropIdsAround(FeatureKeys[..4], FeatureKeys[4..]);
    assert FeatureKeys[..4] + FeatureKeys[4..] == FeatureKeys;
  }

  /** Encoding twice, as the summary screen does when it is drawn a second
      time, finds integer codes where it expects text and sends both
      categorical columns to the default code, whatever was answered. */
  lemma EncodeTwiceForgets(d: Record)
    requires HasCategories(d)
    ensures Get(Encode(Encode(d)), "Gender") == Some(Int(DefaultCode))
    ensures Get(Encode(Encode(d)), "Home Ownership") == Some(Int(DefaultCode))
  {
  }

  /** The record the predictor receives on the rerun that the Predict
      button causes: the answers encoded twice, then the identifying columns
      dropped. Both categorical features are 3 whatever was answered, so an
      applicant who answered M and Rent is scored as if they had answered O and
      Home Mortgage. */
  lemma PredictedRecordAsWritten(d: Record)
    requires HasCategories(d)
    ensures Get(DropIds(Encode(Encode(d))), "Gender") == Some(Int(DefaultCode))
    ensures Get(DropIds(Encode(Encode(d))), "Home Ownership") == Some(Int(DefaultCode))
  {
    assert "Gender" !in IdColumns && "Home Ownership" !in IdColumns;
    EncodeTwiceForgets(d);
  }

  /** The record the predictor should see: the answers with the two codes
      put in and the identifying columns taken out, computed from the answers
      without changing them, so it is the same however often it is built. */
  function Assemble(answers: Record): (r: Record)
    requires HasCategories(answers)
    ensures Keys(r) == Without(Keys(answers), IdColumns)
    ensures Get(r, "Gender") == Some(Int(CodeOf(GenderMapping, Get(answers, "Gender").value)))
    ensures Get(r, "Home Ownership") == Some(Int(CodeOf(HomeOwnershipMapping, Get(answers, "Home Ownership").value)))
    ensures forall k :: k !in IdColumns && k != "Gender" && k != "Home Ownership" ==> Get(r, k) == Get(answers, k)
    ensures forall k :: k in IdColumns ==> Get(r, k).None?
  {
    DropIds(Encode(answers))
  }

  /** For a completed interview, the assembled record has exactly the
      feature columns in interview order, the two categorical answers replaced
      by their codes and every other feature passed through unchanged. */
  lemma {:induction false} AssembleShape(answers: Record)
    requires Keys(answers) == StepKeys()
    ensures HasCategories(answers)
    ensures Keys(Assemble(answers)) == FeatureKeys
    ensures Get(Assemble(answers), "Gender") == Some(Int(CodeOf(GenderMapping, Get(answers, "Gender").value)))
    ensures Get(Assemble(answers), "Home Ownership") ==
              Some(Int(CodeOf(HomeOwnershipMapping, Get(answers, "Home Ownership").value)))
    ensures forall k :: k in FeatureKeys && k != "Gender" && k != "Home Ownership" ==>
              Get(Assemble(answers), k) == Get(answers, k)
    ensures forall k :: k in IdColumns ==> Get(Assemble(answers), k).None?
  {
    TableHasCategories(answers);
    FeatureColumns();
    var r := Assemble(answers);
    assert Keys(r) == FeatureKeys;
    forall k | k in FeatureKeys
      ensures k !in IdColumns
    {
    }
  }

  /** Answers keyed by the table hold both categorical columns. */
  lemma TableHasCategories(d: Record)
    requires Keys(d) == StepKeys()
    ensures HasCategories(d)
  {
    assert Keys(d)[2] == "Gender" && Keys(d)[10] == "Home Ownership";
  }

  /** Once the interview is complete, the predictor sees the code of what
      the applicant actually answered: M, F, O as 1, 2, 3 and Home Owner,
      Rent, Home Mortgage as 1, 2, 3. */
  lemma AssembleKeepsAnswers(answers: Record, gender: string, home: string)
    requires Keys(answers) == StepKeys()
    requires Get(answers, "Gender") == Some(Text(gender)) && gender in GenderMapping
    requires Get(answers, "Home Ownership") == Some(Text(home)) && home in HomeOwnershipMapping
    ensures Get(Assemble(answers), "Gender") == Some(Int(GenderMapping[gender]))
    ensures Get(Assemble(answers), "Home Ownership") == Some(Int(HomeOwnershipMapping[home]))
  {
    AssembleShape(answers);
  }

  const RejectedText := "The loan is likely to be rejected."
  const AcceptedText := "The loan is likely to be accepted."
  const ErrorText := "Error"

  /** The message shown for the predictor's label: 0 is a rejection, 1 an
      acceptance, and any other label an error, never a prediction. */
  function Interpret(prediction: int): (message: string)
    ensures prediction == 0 <==> message == RejectedText
    ensures prediction == 1 <==> message == AcceptedText
    ensures prediction != 0 && prediction != 1 <==> message == ErrorText
  {
    if prediction == 0 then RejectedText
    else if prediction == 1 then AcceptedText
    else ErrorText
  }
}
