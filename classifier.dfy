/**
 * Training-data preparation in `train_model` and the `classify_text` function.
 * The vectoriser and the Naive Bayes classifier are library code: fitting and
 * predicting are function parameters, and `None` from either stands for the
 * exception the source catches.
 */
module Classifier {
  import opened Wrappers
  import opened Labels
  import opened TextCleaning

  /** One row of the `text_data` table (the `id` column plays no part). */
  datatype Row = Row(text: string, sentiment: string)

  /** What the vectoriser and the classifier are fitted on: one cleaned document
      and one label code per row, `None` where pandas' map gives NaN. */
  datatype Corpus = Corpus(docs: seq<string>, codes: seq<Option<int>>)

  /** Rows as `add_data_ui` lets them into the table: non-empty text, accepted label. */
  predicate WellFormedRows(rows: seq<Row>) {
    forall i :: 0 <= i < |rows| ==> rows[i].text != "" && IsValidLabel(rows[i].sentiment)
  }

  /** The label column encoded and the text column cleaned, row by row. */
  function TrainingCorpus(n: Normalizer, rows: seq<Row>): (c: Corpus)
    ensures |c.docs| == |rows| && |c.codes| == |rows|
    ensures forall i :: 0 <= i < |rows| ==>
      c.docs[i] == CleanText(n, rows[i].text) && c.codes[i] == EncodeLabel(rows[i].sentiment)
    ensures forall i :: 0 <= i < |rows| ==> (c.codes[i].None? <==> !IsValidLabel(rows[i].sentiment))
    ensures forall i :: 0 <= i < |rows| && c.codes[i].Some? ==>
      0 <= c.codes[i].value <= 2 && DecodeLabel(c.codes[i].value) == rows[i].sentiment
  {
    Corpus(seq(|rows|, i requires 0 <= i < |rows| => CleanText(n, rows[i].text)),
           seq(|rows|, i requires 0 <= i < |rows| => EncodeLabel(rows[i].sentiment)))
  }

  /** On rows the application itself stored, every label has a code, and a
      prediction of that code decodes back to the stored label. */
  lemma {:induction false} TrainingCodesDecode(n: Normalizer, rows: seq<Row>)
    requires WellFormedRows(rows)
    ensures var c := TrainingCorpus(n, rows);
      forall i :: 0 <= i < |rows| ==>
        c.codes[i].Some? && 0 <= c.codes[i].value <= 2 && DecodeLabel(c.codes[i].value) == rows[i].sentiment
  {
    var c := TrainingCorpus(n, rows);
    forall i | 0 <= i < |rows|
      ensures c.codes[i].Some? && 0 <= c.codes[i].value <= 2 && DecodeLabel(c.codes[i].value) == rows[i].sentiment
    {
      DecodeEncode(rows[i].sentiment);
    }
  }

  /** `classify_text`: clean the input, predict a code on the cleaned text and
      decode it; "" when prediction raises. */
  function ClassifyText<M, V>(n: Normalizer, text: string, model: M, vectorizer: V,
                              predict: (M, V, string) -> Option<int>): (sentiment: string)
    ensures sentiment == "" <==> predict(model, vectorizer, CleanText(n, text)).None?
    ensures sentiment != "" ==> IsValidLabel(sentiment)
    ensures var p := predict(model, vectorizer, CleanText(n, text));
      p.Some? && 0 <= p.value <= 2 ==> EncodeLabel(sentiment) == p
    ensures var p := predict(model, vectorizer, CleanText(n, text));
      p.Some? && p.value != 0 && p.value != 1 ==> sentiment == "Notr"
  {
    DecodePrediction(predict(model, vectorizer, CleanText(n, text)))
  }

  /** The `try` around prediction in `classify_text`: a predicted code is decoded,
      a failed prediction gives "". */
  function DecodePrediction(p: Option<int>): (sentiment: string)
    ensures sentiment == "" <==> p.None?
    ensures sentiment != "" ==> IsValidLabel(sentiment)
    ensures p.Some? && 0 <= p.value <= 2 ==> EncodeLabel(sentiment) == p
    ensures p.Some? && p.value != 0 && p.value != 1 ==> sentiment == "Notr"
  {
    match p
    case None => ""
    case Some(code) => DecodeLabel(code)
  }

  /** Input with no letter of the class (after lowercasing) is still classified:
      the prediction is made on the empty document. */
  lemma ClassifyNoLetters<M, V>(n: Normalizer, text: string, model: M, vectorizer: V,
                                predict: (M, V, string) -> Option<int>)
    requires forall i :: 0 <= i < |n.lower(text)| ==> !IsLetter(n.lower(text)[i])
    requires predict(model, vectorizer, "").Some?
    ensures ClassifyText(n, text, model, vectorizer, predict) == DecodeLabel(predict(model, vectorizer, "").value)
  {
    CleanTextNoLetters(n, text);
  }
}
