# Loan prediction chatbot: interview and feature assembly

A Dafny model of the logic inside the loan-acceptance chatbot (`chatbot.py`).
The chatbot asks fifteen questions one at a time. It checks each answer against
the field's validator. A rejected answer gets an error message in the
transcript and the same question is asked again. An accepted answer is stored
and the chatbot moves on. Once every question is answered, the summary screen
re-encodes Gender and Home Ownership as integer codes. It then drops the ID and
ZIP Code columns, hands the record to a trained classifier and shows a message
for the label the classifier returns.

Files, one module each:

- `values.dfy` (`Values`): the answer values (text, integer, opaque float),
  Python's `str` on them, `str.isdigit` and `int` on ASCII digit strings.
- `fields.dfy` (`Fields`): the fifteen-entry field table with its validators
  and error texts; `Respond`, the decision the "Next" button makes on one
  answer; and lemmas stating in closed form what each text field accepts.
- `records.dfy` (`Records`): the insertion-ordered `dict` of answers as a
  sequence of (key, value) pairs, and `drop(columns=...)` on it.
- `features.dfy` (`Features`): the two code tables, the encoding done in place
  on the answers, the dropping of the identifying columns, the assembled
  feature record and the interpretation of the label.
- `interview.dfy` (`Interview`): the session state (`step`, `user_data`,
  `messages`) as a class. Its methods are `Submit` for the "Next" button,
  `Reset` for "Start Over" and `ShowSummary` for one run of the summary
  screen. Every click that makes Streamlit rerun the script is one method
  call.

The classifier is a function parameter `predict: Record -> int`. The widgets
are a precondition on the answers they deliver (`FromWidget`): a text box gives
text, an integer box gives an integer within its bounds, the float box gives a
float.

Three points of `chatbot.py` that a reader might not expect, all modelled as
the code has them:

- The summary screen overwrites `user_data['Gender']` and
  `user_data['Home Ownership']` in place (lines 106-107). It does not build a
  separate feature record. `ShowSummary` does the same, and the consequence is
  under "Findings".
- Transcript entries carry the roles `bot` and `user` (lines 86, 89, 93).
- The family-size rule `x.isdigit() and 1 <= int(x) <= 4` (line 33) also
  accepts leading zeros ("02", "0004"). `FamilyRule` states this.

## Model

| member | source | states |
|---|---|---|
| Values.IntToString | chatbot.py:89 | `str` of an integer is never empty; for a non-negative integer it is digits without a leading zero (other than "0" itself) that `int` reads back to the same number, and for a negative one it is a minus sign before such digits |
| Values.NatToString | chatbot.py:89 | the decimal text of a natural number is all digits, has no leading zero and reads back to the same number |
| Values.Str | chatbot.py:89 | `str` of a text answer is the text itself, of the float answer its printed form, and of an integer its non-empty decimal text |
| Values.DigitsListed | chatbot.py:27-33 | `str.isdigit` over ASCII (`IsDigits`) holds exactly for a non-empty string every character of which is one of "0123456789" |
| Values.ParseDigits | chatbot.py:33 | `int` of a digit string ends in the string's last digit: the value modulo 10 is that digit |
| Values.ParseZero | chatbot.py:33 | a digit string reads as zero exactly when every character is '0' |
| Values.SmallValue | chatbot.py:33 | a digit string reads as a value in [lo, hi], hi < 10, exactly when it is zeros followed by one digit in that range |
| Fields.StepKeys | chatbot.py:26-42 | the table's keys, one per field in interview order, and no two fields share a key |
| Fields.Holds | chatbot.py:27-41 | a validator passes only non-empty ASCII digit strings for the numeric rules (of length n for the ZIP rule, with a value in [lo, hi] for the family rule) and only listed strings for a list rule |
| Fields.Passes | chatbot.py:85 | a validator never passes a number; on text it passes exactly what its rule accepts |
| Fields.Answered | chatbot.py:83 | an answer is present and not blank only if it exists; an integer always is, and text is exactly when it is not empty |
| Fields.Respond | chatbot.py:83-93 | an accepted answer is the raw answer unchanged; for an answer from the field's widget, it is accepted exactly when it is present, not blank and passes the field's validator, if the field has one |
| Fields.BlankReplyOnlyForBlank | chatbot.py:83-93 | the reply is "Please provide a valid response." exactly when the answer is missing or blank, since no field's own error text equals it |
| Fields.InvalidGetsFieldError | chatbot.py:85-86 | a non-blank answer that fails the field's validator is rejected with that field's error text |
| Fields.NumberFieldsAcceptAll | chatbot.py:28-36 | number fields have no validator: every non-blank answer from a number box is accepted, and every integer answer is |
| Fields.IdRule | chatbot.py:27 | the ID field accepts exactly the non-empty strings of ASCII digits |
| Fields.ZipRule | chatbot.py:32 | the ZIP Code field accepts exactly the five-character strings of ASCII digits |
| Fields.FamilyRule | chatbot.py:33 | the Family field accepts exactly a digit 1 to 4 after any number of leading zeros |
| Fields.GenderRule | chatbot.py:29 | the Gender field accepts exactly "M", "F" and "O" |
| Fields.EducationRule | chatbot.py:35 | the Education field accepts exactly "1", "2" and "3" |
| Fields.HomeOwnershipRule | chatbot.py:37 | the Home Ownership field accepts exactly "Home Owner", "Rent" and "Home Mortgage" |
| Fields.FlagRules | chatbot.py:38-41 | each of the four yes/no fields accepts exactly "0" and "1" |
| Records.Keys | chatbot.py:88-110 | the column names of the record, one per entry and in insertion order: the i-th name is the key of the i-th entry |
| Records.Get | chatbot.py:106-107 | a lookup finds a value exactly when the key is among the record's keys |
| Records.GetFirst | chatbot.py:106-107 | the value a lookup finds is the one in the first entry for the key |
| Records.Put | chatbot.py:88 | after `d[k] = v`, `k` reads `v` and every other key reads what it read before; an existing key keeps its place, and a new key is appended at the end |
| Records.Drop | chatbot.py:114 | dropping columns keeps the other columns in their original order, each with its original value, and the dropped columns are gone |
| Records.WithoutMembers | chatbot.py:114 | the columns left after a drop are exactly the original columns outside the dropped set |
| Features.GenderCodes | chatbot.py:45 | Gender "M", "F", "O" get codes 1, 2, 3; any other value, an integer code included, gets the default 3 |
| Features.HomeOwnershipCodes | chatbot.py:46 | Home Owner, Rent, Home Mortgage get codes 1, 2, 3; any other value, an integer code included, gets 3 |
| Features.CodeOf | chatbot.py:106-107 | `mapping.get(v, 3)`: a listed text value gets its code, any integer gets 3, and every result is 3 or a code of the table |
| Features.Encode | chatbot.py:106-107 | the in-place encoding keeps the keys and their order, replaces Gender and Home Ownership by their codes and leaves every other entry as it was |
| Features.DropIds | chatbot.py:114 | the record handed to the predictor has the answers' keys minus ID and ZIP Code, in order, with their values |
| Features.Assemble | chatbot.py:106-114 | the record the predictor should get: the answers' keys minus ID and ZIP Code in order, the two categorical answers as their codes, every other feature as answered, and no ID or ZIP Code |
| Features.FeatureColumns | chatbot.py:114 | the table's keys minus ID and ZIP Code are the thirteen feature columns Age, Gender, Experience, Income, Family, CCAvg, Education, Mortgage, Home Ownership, Securities Account, CD Account, Online, CreditCard, in that order |
| Features.DropIdsAround | chatbot.py:114 | dropping ID and ZIP Code from ID, a block of features, ZIP Code, another block of features leaves the two blocks joined |
| Features.EncodeTwiceForgets | chatbot.py:106-107 | applying the in-place encoding twice sends both categorical columns to code 3, whatever was answered |
| Features.PredictedRecordAsWritten | chatbot.py:106-114 | the record the predictor receives after a second encoding has Gender 3 and Home Ownership 3 |
| Features.AssembleShape | chatbot.py:106-114 | for answers keyed exactly by the table, the assembled record has exactly the feature columns, the two categorical answers as their codes, every other feature unchanged, and no ID or ZIP Code |
| Features.TableHasCategories | chatbot.py:106-107 | answers keyed by the table hold Gender and Home Ownership, so both lookups at lines 106-107 find a value |
| Features.AssembleKeepsAnswers | chatbot.py:106-107 | for a completed interview the assembled record codes the Gender and Home Ownership actually answered by their table entries |
| Features.Interpret | chatbot.py:117-122 | label 0 and only label 0 gives the rejection message, label 1 and only label 1 the acceptance message, and every other label "Error" |
| Interview.Session.constructor | chatbot.py:12-15 | a new session is at question 0 with no answers and an empty transcript |
| Interview.Session.NextStep | chatbot.py:17-18 | the position goes up by exactly one and nothing else changes |
| Interview.Session.Reset | chatbot.py:20-23 | from any state: position 0, no answers, empty transcript |
| Interview.Session.CurrentField | chatbot.py:64-65 | there is a current question exactly while the position is below fifteen; it is the table's entry at that position, and its key has no answer yet |
| Interview.Session.Submit | chatbot.py:82-93 | the three outcomes of "Next": a blank answer appends exactly the generic bot message and changes nothing else; a failing answer appends exactly the field's error message and changes nothing else; an accepted answer appends exactly the entry (key, raw answer) to the answers and one user message `str(answer)`, and advances the position by exactly one. It is called only while a question is open. It keeps `0 <= step <= 15`, keeps the answers keyed by the questions passed in table order, and keeps every stored answer admissible |
| Interview.Session.CompleteHasEveryKey | chatbot.py:64-65 | at position fifteen every key of the table has an answer, and the answers' keys are the table's keys in order |
| Interview.Session.CollectedCodes | chatbot.py:103-107 | when every stored answer is admissible, the summary screen finds a listed Gender and a listed Home Ownership status, and the record the predictor should get carries their codes from the two tables |
| Interview.Session.ShowSummary | chatbot.py:103-122 | one run of the summary screen as written: the answers are replaced by their in-place encoding, the predictor gets them without ID and ZIP Code, and a message is shown only on the run caused by "Predict" |
| Interview.Session.ShowSummaryFixed | chatbot.py:103-122 | the summary screen with the encoding kept out of the answers: the predictor gets exactly the feature columns with the codes of the answers given, on every run |
| Interview.StoreAnswer | chatbot.py:88 | storing the answer to question n after the answers to the earlier questions appends a new last entry |
| Interview.KeepCollected | chatbot.py:85-90 | an admissible answer to question n after admissible answers to the earlier questions leaves every stored answer admissible |
| Interview.PredictAsWritten | chatbot.py:90-114 | the two runs after the last answer (the rerun after `next_step`, then the click on "Predict"): only the answers change, to their encoding applied twice, with the keys still those of the table; the predictor gets them without ID and ZIP Code, with code 3 for Gender and Home Ownership whatever was answered, and the message for its label is shown |

## Left out

- Streamlit rendering is not modelled: titles, markdown, chat bubbles, the replay of the transcript, the prompts and `st.write` of the summary and the table (chatbot.py:6, 48-62, 66-81, 95-104, 115-116, 125). It is display only. The transcript is kept as data.
- The rerun control flow (`st.experimental_rerun`, buttons) is not modelled as such. Each button press, and each script run it causes, is one explicit method call.
- Loading the model and calling `model.predict` (chatbot.py:9, 114) are outside code. The predictor is a function parameter returning an integer. Taking element `[0]` of its one-row result is folded into that parameter.
- The pandas DataFrame (chatbot.py:110) is the ordered key/value record itself. Column dtypes are not modelled.
- Interview.Session.Submit: requires the answer to come from the current field's own widget (`FromWidget`). The number boxes clamp to `min_value`/`max_value` and start at `value` inside `st.number_input`, which is not visible code. So the model assumes an integer answer within the bounds and does not model the default value. On a text field, an answer that is not text would make Python's validator raise or return false; that cannot happen through the widgets.
- The CCAvg float (chatbot.py:34) is opaque, carried only as its printed text. No floating-point reasoning is done, and its bounds are not checked.
- Records.Get: its own contract says only when a lookup finds a value. Which value it finds (the first entry for the key) is the separate lemma `Records.GetFirst`. In the records the model builds every key occurs once, so the two agree.
- Records.Drop: pandas raises `KeyError` when a dropped column is missing. The model skips a missing column and drops the others. At line 114 both ID and ZIP Code are always present, since every table key has an answer (`Interview.Session.CompleteHasEveryKey`).
- Fields.FamilyRule: CPython's `int` raises `ValueError` on a string of more than 4300 digits. A leading-zero family answer that long is accepted by the model but would crash the script.
- Python's `str.isdigit` also accepts non-ASCII digits, some of which `int` cannot read. The model admits only ASCII '0' to '9'.

## Findings

| source | as written | input that shows it | evidently intended | confidence | as-written member | corrected member |
|---|---|---|---|---|---|---|
| chatbot.py:106-107 | The summary branch re-encodes `user_data['Gender']` and `user_data['Home Ownership']` in place on every script run. The first run (after the last "Next") turns "M" into 1. The run caused by clicking "Predict" encodes again, and `gender_mapping.get(1, 3)` gives 3. | Answer Gender "M" and Home Ownership "Rent", then click "Predict": the predictor receives Gender 3 and Home Ownership 3 instead of 1 and 2. | The predictor receives the codes of the answers given: M, F, O as 1, 2, 3 and Home Owner, Rent, Home Mortgage as 1, 2, 3. | high; not executed (relies on Streamlit rerunning the whole script on each click) | Features.PredictedRecordAsWritten | Interview.Session.ShowSummaryFixed |
