# Turkish sentiment classifier: text normaliser, label codec and UI state

A Dafny model of the self-contained logic of a small desktop application that
classifies Turkish text as `Positive`, `Negative` or `Notr` with a bag-of-words
Naive Bayes classifier. The application keeps labelled examples in one sqlite
table (`text_data`), retrains from all of them on demand, and keeps the fitted
model and vectoriser in memory.

The model covers:

- **`clean_text`** (module `TextCleaning`, file `text_cleaning.dfy`). The normaliser
  is a pipeline of pure functions: lowercasing, a character filter that keeps
  `a`-`z`, `ç`, `ğ`, `ı`, `ö`, `ş`, `ü` and whitespace, `str.split()`, stop-word
  removal, stemming, and `' '.join`. Lowercasing, the stop-word set and the stemmer
  belong to libraries. They are the fields of a `Normalizer` value and are left
  unconstrained. Whitespace is Python's `str.isspace` class, written out in full;
  the regular expression `\s` and `str.split()` both use it.
- **The label codec** (module `Labels`, file `labels.dfy`). Labels map to codes
  `Positive -> 1`, `Negative -> 0`, `Notr -> 2`, and any other label gives pandas'
  NaN, modelled as `None`. Decoding sends 0 to `Negative`, 1 to `Positive`, and
  every other code to `Notr`.
- **Training data and `classify_text`** (module `Classifier`, file `classifier.dfy`).
  Before fitting, `train_model` encodes each row's label and cleans its text.
  `classify_text` cleans its input, predicts and decodes. Fitting and predicting
  are library code, so they are function parameters. Where either returns `None`,
  that stands for the exception the source catches.
- **The three button handlers** (module `App`, file `app.dfy`). This is a class
  `SentimentApp` with three fields: the table as a `seq<Row>`, and the model and
  the vectoriser as two `Option` fields. `Valid()` states that the model and the
  vectoriser are present together or absent together. Dialog answers are
  parameters, and a cancelled dialog is `None`. Whether a database read or insert
  succeeds is a boolean parameter. Each handler returns the message box it shows.

## Model

| member | source | states |
|---|---|---|
| `TextCleaning.KeepLetters` | main.py:34 | every remaining character is a letter of the class or whitespace; a character is in the result exactly when it is in the input and in the class; the result is no longer than the input |
| `TextCleaning.KeepLettersAppend` | main.py:34 | the filter distributes over concatenation, so what it keeps stays in input order |
| `TextCleaning.KeepLettersIdentity` | main.py:34 | the filter leaves a string unchanged if and only if every character is in the class |
| `TextCleaning.Split` | main.py:35 | every word `str.split()` yields is non-empty and contains no whitespace |
| `TextCleaning.SplitAtSpace` | main.py:35 | words break exactly at whitespace: splitting at any whitespace character gives the words before it followed by the words after it |
| `TextCleaning.SplitKeepsCharacters` | main.py:35 | the concatenated words are exactly the non-whitespace characters of the input, in order |
| `TextCleaning.SplitOfSpaces` | main.py:35 | a string of whitespace only splits into no words |
| `TextCleaning.SplitJoinWords` | main.py:35-38 | splitting a single-space join of words gives back exactly those words |
| `TextCleaning.JoinWords` | main.py:38 | the join of no words is `""`; a join starts with its first word; its length is the total length of the words plus one separator between each pair |
| `TextCleaning.JoinWordsEmpty` | main.py:38 | a join of words is `""` if and only if the list is empty |
| `TextCleaning.DropStopWords` | main.py:36 | no surviving word is a stop word; a word survives exactly when it was in the input and is not a stop word |
| `TextCleaning.DropStopWordsKeepsOrder` | main.py:36 | the survivors are a subsequence of the input, so relative order is kept |
| `TextCleaning.DropStopWordsAppend` | main.py:36 | stop-word removal distributes over concatenation |
| `TextCleaning.StemAll` | main.py:37 | one stem per token: same length, and word i is `stem(token i)` |
| `TextCleaning.Tokens` | main.py:33-36 | every token that reaches the stemmer is a non-empty run without whitespace and is not a stop word |
| `TextCleaning.CleanText` | main.py:31-38 | no tokens give `""`; when every stem is a word, splitting the output gives back exactly the stems of the tokens, in order |
| `TextCleaning.FilteredCharacters` | main.py:33-34 | after lowercasing and filtering, every character is a letter of the class or whitespace |
| `TextCleaning.TokensShape` | main.py:33-36 | every surviving token is non-empty and made only of letters of the class (so it has no whitespace); no token is a stop word; the tokens are a subsequence of the split words |
| `TextCleaning.CleanTextWords` | main.py:31-38 | the output is the stems of the surviving tokens, one per token and in order, joined by single spaces; when every stem is a word, splitting the output gives exactly one word per token |
| `TextCleaning.CleanTextNoLetters` | main.py:33-38 | input with no letter of the class after lowercasing has no tokens and normalises to `""` |
| `TextCleaning.CleanTextOnlyStopWords` | main.py:35-38 | input whose every word is a stop word has no tokens and normalises to `""` |
| `Labels.EncodeLabel` | main.py:58 | a label has a code if and only if it is `Positive`, `Negative` or `Notr`, and the code is in 0..2 |
| `Labels.DecodeLabel` | main.py:88 | decoding is total and always yields an accepted label; every code other than 0 and 1 decodes to `Notr` |
| `Labels.DecodeEncode` | main.py:88 | decoding the code of an accepted label gives back that label |
| `Labels.EncodeDecode` | main.py:58 | encoding the label of a code in 0..2 gives back that code |
| `Labels.EncodeInjective` | main.py:58 | two labels with the same code are the same label |
| `Labels.ValidLabelsAreDecodable` | main.py:160 | a label is accepted if and only if some code in 0..2 decodes to it |
| `Classifier.TrainingCorpus` | main.py:58-61 | one document and one code per row, in row order; code i is missing exactly when the label of row i is not accepted, and otherwise it is in 0..2 and decodes back to that label |
| `Classifier.TrainingCodesDecode` | main.py:58 | for rows the application stored, every code is defined and in 0..2, and decoding it gives back the stored label |
| `Classifier.ClassifyText` | main.py:83-91 | the result is `""` exactly when prediction fails; otherwise it is an accepted label; a predicted code in 0..2 is the encoding of the returned label; any other code gives `Notr` |
| `Classifier.DecodePrediction` | main.py:88-91 | a failed prediction gives `""` and only it does; a code in 0..2 decodes to the label with that code; any other code gives `Notr` |
| `Classifier.ClassifyNoLetters` | main.py:85-88 | input with no letter of the class is still classified, with the prediction made on the empty document |
| `App.SentimentApp.constructor` | main.py:96-100 | the table is the existing rows; the model and the vectoriser are both the loaded pair, or both absent when loading failed |
| `App.IsDigits` | main.py:145 | an all-digit answer is non-empty and the character filter would remove all of it |
| `App.SentimentApp.ClassifyTextUi` | main.py:139-153 | refuses with "model missing" exactly when the model or the vectoriser is absent, with "digits only" exactly when the answer is all digits, and with "empty" exactly when it is empty or cancelled (an answer counts as given when the dialog was not cancelled and the answer is not empty); otherwise returns the classification of the answer; changes nothing |
| `App.SentimentApp.AddDataUi` | main.py:155-182 | adds exactly one `(text, label)` row when both answers are given (neither dialog cancelled, neither answer empty), the label is accepted and the insert succeeds; otherwise the table is unchanged; rows are never removed; a table of well-formed rows stays well-formed; the reported outcome does not depend on the insert |
| `App.SentimentApp.RetrainModelUi` | main.py:184-194 | on an empty or unreadable table, nothing changes; otherwise the model and the vectoriser become exactly the training result, both absent when training fails; the table is unchanged and the matched-pair invariant holds |
| `App.FailedRetrainDropsModel` | main.py:184-194 | a model loaded at start-up classifies the input, but after a failed retrain on a non-empty table, classification is refused for want of a model |

## Left out

- The sqlite connection, the query and the insert (main.py:21-27, 45-52, 169-182) are I/O. The table is a sequence of rows. `load_from_database`'s error path is the `readOk` parameter of `RetrainModelUi`, and `save_to_database`'s is the `insertOk` parameter of `AddDataUi`. A connection that failed to open (`self.conn` is `None`) makes the add and retrain handlers raise an exception they do not catch, and is not modelled.
- Saving and loading the model and the vectoriser with joblib (main.py:72-73, 129-137) is file I/O on opaque pickles. The constructor takes what `load_model` returned as a parameter.
- `CountVectorizer` and `MultinomialNB` fitting, transforming and predicting (main.py:65-68, 86-87) are library code with floating-point probabilities. They are the `fit` and `predict` parameters. The model does not say which class Naive Bayes predicts.
- The TurkishStemmer internals and the NLTK stop-word download (main.py:9-17) are library code. They are fields of `Normalizer`.
- `str.lower` is the `lower` field of `Normalizer`, so Unicode case mapping (for example `I` to `i`, or `İ` to `i` plus a combining dot) is not modelled.
- The `except` branch of `clean_text` (main.py:39-41) is not modelled, because the lowercasing and stemming parameters are total.
- The tkinter window, widgets and dialogs, `create_widgets`, and `on_closing` (main.py:95-127, 196-203) are UI. Message boxes become the handlers' outcome values, and the `print` calls are dropped.
- `App.IsDigits`: `str.isdigit` is modelled on the ASCII digits `0`-`9` only, so `"²"` or `"٣"` is a digit string to Python but not to the model.
- `App.SentimentApp.ClassifyTextUi`: `str.isdigit` is modelled on the ASCII digits `0`-`9` only. Python also counts other Unicode digits, such as Arabic-Indic digits and superscripts.
- The model does not claim that `clean_text` is idempotent. The stemmer's output is unconstrained, so it can itself be a stop word or stem differently a second time.

## Notes

- A failed retraining discards the loaded model: main.py:190 assigns the `(None, None)` that `train_model` returns on failure (main.py:77-79). `RetrainModelUi` says so and `FailedRetrainDropsModel` shows it.
- `add_data_ui` shows its success message even when the insert failed. This is because `save_to_database` reports the error itself and returns normally (main.py:164-165, 181-182). `AddDataUi` returns `Added` in that case, with the table unchanged.
