/**
 * The three sentiment labels and their integer codes. The labels are English
 * strings ("Positive", "Negative", "Notr"); the classifier sees the codes
 * Positive -> 1, Negative -> 0, Notr -> 2.
 */
module Labels {
  import opened Wrappers

  /** The labels `add_data_ui` accepts; case-sensitive. */
  predicate IsValidLabel(sentiment: string) {
    sentiment == "Positive" || sentiment == "Negative" || sentiment == "Notr"
  }

  /** The label column mapped through `{'Positive': 1, 'Negative': 0, 'Notr': 2}`;
      pandas gives NaN (here `None`) for any other label. */
  function EncodeLabel(sentiment: string): (code: Option<int>)
    ensures code.Some? <==> IsValidLabel(sentiment)
    ensures code.Some? ==> 0 <= code.value <= 2
  {
    if sentiment == "Positive" then Some(1)
    else if sentiment == "Negative" then Some(0)
    else if sentiment == "Notr" then Some(2)
    else None
  }

  /** The conditional that turns a prediction back into a label: 0 is Negative,
      1 is Positive and every other code is Notr. */
  function DecodeLabel(code: int): (sentiment: string)
    ensures IsValidLabel(sentiment)
    ensures code != 0 && code != 1 ==> sentiment == "Notr"
  {
    if code == 0 then "Negative" else if code == 1 then "Positive" else "Notr"
  }

  /** Decoding undoes encoding on every accepted label. */
  lemma DecodeEncode(sentiment: string)
    requires IsValidLabel(sentiment)
    ensures EncodeLabel(sentiment).Some?
    ensures DecodeLabel(EncodeLabel(sentiment).value) == sentiment
  {
  }

  /** Encoding undoes decoding on the three codes the classifier is trained on. */
  lemma EncodeDecode(code: int)
    requires 0 <= code <= 2
    ensures EncodeLabel(DecodeLabel(code)) == Some(code)
  {
  }

  /** The accepted labels are exactly the labels a prediction can decode to. */
  lemma ValidLabelsAreDecodable(sentiment: string)
    ensures IsValidLabel(sentiment) <==> exists code :: 0 <= code <= 2 && DecodeLabel(code) == sentiment
  {
    if IsValidLabel(sentiment) {
      DecodeEncode(sentiment);
      var code := EncodeLabel(sentiment).value;
      assert 0 <= code <= 2 && DecodeLabel(code) == sentiment;
    }
  }

  /** Distinct labels get distinct codes. */
  lemma EncodeInjective(a: string, b: string)
    requires EncodeLabel(a).Some? && EncodeLabel(a) == EncodeLabel(b)
    ensures a == b
  {
    DecodeEncode(a);
    DecodeEncode(b);
  }
}
