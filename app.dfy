/**
 * The state and guard logic of `SentimentApp`: the `text_data` table as a
 * sequence of rows, the loaded model and vectoriser as two optional fields, and
 * the three handlers behind the "classify", "add data" and "retrain" buttons.
 *
 * Dialog answers are parameters (`None` is a cancelled dialog); whether a
 * database read or insert succeeds is a boolean parameter; message boxes become
 * the outcome each handler returns.
 */
module App {
  import opened Wrappers
  import opened Labels
  import opened TextCleaning
  import opened Classifier

  /** Which message `classify_text_ui` shows. */
  datatype ClassifyOutcome = ModelMissing | DigitsOnly | EmptyInput | Predicted(sentiment: string)

  /** Which message `add_data_ui` shows. */
  datatype AddOutcome = MissingField | InvalidLabel | Added

  /** Which message `retrain_model_ui` shows. */
  datatype RetrainOutcome = NoData | Retrained | TrainingFailed

  /** Python truthiness of a dialog answer: a cancelled dialog and "" are false. */
  predicate Given(answer: Option<string>) {
    answer.Some? && answer.value != ""
  }

  /** `str.isdigit`, restricted to the ASCII digits. Such an answer would be
      cleaned to nothing: no digit is a letter of the class or whitespace. */
  predicate IsDigits(s: string): (digits: bool)
    ensures digits ==> s != [] && KeepLetters(s) == ""
  {
    DigitsFilteredOut(s);
    s != [] && forall i :: 0 <= i < |s| ==> '0' <= s[i] <= '9'
  }

  /** The character filter removes every ASCII digit. */
  lemma {:induction false} DigitsFilteredOut(s: string)
    ensures (forall i :: 0 <= i < |s| ==> '0' <= s[i] <= '9') ==> KeepLetters(s) == ""
  {
    if s != [] && forall i :: 0 <= i < |s| ==> '0' <= s[i] <= '9' {
      assert !Kept(s[0]);
      assert forall i :: 0 <= i < |s[1..]| ==> s[1..][i] == s[i + 1];
      DigitsFilteredOut(s[1..]);
    }
  }

  class SentimentApp<M, V> {
    /** The rows of `text_data`, oldest first. */
    var store: seq<Row>
    var model: Option<M>
    var vectorizer: Option<V>

    /** The model and the vectoriser are present together or absent together. */
    ghost predicate Valid()
      reads this
    {
      model.Some? <==> vectorizer.Some?
    }

    /** Opens the application on an existing table; `loaded` is what
        `load_model` read from disk, `None` when loading raised. */
    constructor (rows: seq<Row>, loaded: Option<(M, V)>)
      ensures Valid()
      ensures store == rows
      ensures loaded.Some? ==> model == Some(loaded.value.0) && vectorizer == Some(loaded.value.1)
      ensures loaded.None? ==> model.None? && vectorizer.None?
    {
      store := rows;
      match loaded {
        case Some(pair) =>
          model, vectorizer := Some(pair.0), Some(pair.1);
        case None =>
          model, vectorizer := None, None;
      }
    }

    /** `classify_text_ui`: refuses when the model or the vectoriser is missing
        (before asking for input), when the answer is all digits, and when it is
        empty or cancelled; otherwise classifies it. Changes nothing. */
    method ClassifyTextUi(n: Normalizer, input: Option<string>, predict: (M, V, string) -> Option<int>)
      returns (outcome: ClassifyOutcome)
      ensures outcome == ModelMissing <==> model.None? || vectorizer.None?
      ensures outcome == DigitsOnly <==> model.Some? && vectorizer.Some? && Given(input) && IsDigits(input.value)
      ensures outcome == EmptyInput <==> model.Some? && vectorizer.Some? && !Given(input)
      ensures outcome.Predicted? ==>
        && model.Some? && vectorizer.Some? && Given(input) && !IsDigits(input.value)
        && outcome.sentiment == ClassifyText(n, input.value, model.value, vectorizer.value, predict)
    {
      if model.None? || vectorizer.None? {
        return ModelMissing;
      }
      if Given(input) && IsDigits(input.value) {
        return DigitsOnly;
      }
      if Given(input) {
        var prediction := ClassifyText(n, input.value, model.value, vectorizer.value, predict);
        outcome := Predicted(prediction);
      } else {
        outcome := EmptyInput;
      }
    }

    /** `add_data_ui` with `save_to_database`: appends one row when both answers
        are given and the label is accepted and the insert succeeds; rows are
        never removed. A failed insert is reported by the store and the
        handler still shows its success message. */
    method AddDataUi(text: Option<string>, labelText: Option<string>, insertOk: bool)
      returns (outcome: AddOutcome)
      modifies this`store
      ensures outcome == MissingField <==> !Given(text) || !Given(labelText)
      ensures outcome == InvalidLabel <==> Given(text) && Given(labelText) && !IsValidLabel(labelText.value)
      ensures outcome == Added <==> Given(text) && Given(labelText) && IsValidLabel(labelText.value)
      ensures store ==
        if Given(text) && Given(labelText) && IsValidLabel(labelText.value) && insertOk
        then old(store) + [Row(text.value, labelText.value)]
        else old(store)
      ensures old(store) <= store
      ensures WellFormedRows(old(store)) ==> WellFormedRows(store)
    {
      if Given(text) && Given(labelText) {
        if !IsValidLabel(labelText.value) {
          return InvalidLabel;
        }
        if insertOk {
          store := store + [Row(text.value, labelText.value)];
        }
        outcome := Added;
      } else {
        outcome := MissingField;
      }
    }

    /** `retrain_model_ui`: does nothing on an empty (or unreadable) table;
        otherwise replaces the model and the vectoriser by whatever training
        returns, both absent when training raised. */
    method RetrainModelUi(n: Normalizer, readOk: bool, fit: Corpus -> Option<(M, V)>)
      returns (outcome: RetrainOutcome)
      requires Valid()
      modifies this`model, this`vectorizer
      ensures Valid()
      ensures store == old(store)
      ensures !readOk || store == [] ==>
        outcome == NoData && model == old(model) && vectorizer == old(vectorizer)
      ensures readOk && store != [] && fit(TrainingCorpus(n, store)).Some? ==>
        && outcome == Retrained
        && model == Some(fit(TrainingCorpus(n, store)).value.0)
        && vectorizer == Some(fit(TrainingCorpus(n, store)).value.1)
      ensures readOk && store != [] && fit(TrainingCorpus(n, store)).None? ==>
        outcome == TrainingFailed && model.None? && vectorizer.None?
    {
      var rows := if readOk then store else [];
      if rows == [] {
        return NoData;
      }
      var trained := fit(TrainingCorpus(n, rows));
      match trained {
        case Some(pair) =>
          model, vectorizer := Some(pair.0), Some(pair.1);
          outcome := Retrained;
        case None =>
          model, vectorizer := None, None;
          outcome := TrainingFailed;
      }
    }
  }

  /** A failed retrain discards a model that was loaded at start-up, after which
      classification is refused for want of a model. */
  method FailedRetrainDropsModel<M, V>(n: Normalizer, rows: seq<Row>, loaded: (M, V),
                                       fit: Corpus -> Option<(M, V)>, input: Option<string>,
                                       predict: (M, V, string) -> Option<int>)
    returns (before: ClassifyOutcome, after: ClassifyOutcome)
    requires rows != [] && fit(TrainingCorpus(n, rows)).None?
    requires Given(input) && !IsDigits(input.value)
    ensures before == Predicted(ClassifyText(n, input.value, loaded.0, loaded.1, predict))
    ensures after == ModelMissing
  {
    var app := new SentimentApp(rows, Some(loaded));
    before := app.ClassifyTextUi(n, input, predict);
    var retrained := app.RetrainModelUi(n, true, fit);
    after := app.ClassifyTextUi(n, input, predict);
  }
}
