# HR attrition prediction: the feature pipeline

This project models the part of the employee attrition predictor that turns
one submission of the prediction form into the row of numbers the trained
classifier sees, and then turns the classifier's label into the message on
the page (`predictive_model` in `app.py`). There are three modules and a
small helper module:

- `Codec` (`codec.dfy`) holds the label codecs. Gender and OverTime are
  binary: they compare the answer with one reference label. The seven
  ordinal fields each run an `if/elif/else` chain over the labels the form
  offers. Each chain ends in a catch-all `else`, so every codec is total over
  all strings. The chains are written out field by field, as in the source.
  They are also proved equal to one generic reference chain over the form's
  choice list. Decoding, round trips and injectivity are proved once against
  that reference.
- `Frames` (`frames.dfy`) models a one-row pandas DataFrame as its column
  labels plus a map of cells. It models the three pandas operations the
  aligner uses: `get_dummies`, `df[col] = 0` and `df[columns]`. The aligner
  `one_hot_encode_input` is a method with the same loop over the set of
  missing training columns. The set is drained in an arbitrary order,
  because Python set iteration order is unspecified.
- `Prediction` (`prediction.dfy`) builds the eleven-key record from the
  answers and guards against missing values. It then aligns the record and
  calls the classifier. `FeatureValue` states, column by column, what the
  model receives: the encoded value, 1 for a selected indicator, and 0 for
  anything else. It is independent of the frame operations and the aligner
  loop, but it reuses the codecs and `IndicatorName`; those are pinned down
  by their own lemmas (the codec round trips, the indicator labels read
  back as the value's decimal text). The pipeline method is proved against
  `FeatureValue`.
- `Optional` holds the `Option` type.

The training column list and the classifier are parameters: `columns` is a
`seq<string>` and `predict` is a function from the row to a label.

## Model

| member | source | states |
|---|---|---|
| Codec.EncodeGender | app.py:448 | Gender encodes to 0 or 1, and to 1 exactly when the answer is "Male". |
| Codec.EncodeOverTime | app.py:477 | OverTime encodes to 0 or 1, and to 1 exactly when the answer is "Yes". |
| Codec.DecodeGender | app.py:429 | Reverse lookup of a gender code: defined exactly on 0 and 1, and yields an offered choice. |
| Codec.DecodeOverTime | app.py:437 | Reverse lookup of an overtime code: defined exactly on 0 and 1, and yields an offered choice. |
| Codec.GenderRoundTrip | app.py:429-448 | Both offered gender labels survive encode then decode, and both codes survive decode then encode. |
| Codec.OverTimeRoundTrip | app.py:437-477 | Both offered overtime labels survive encode then decode, and both codes survive decode then encode. |
| Codec.EncodeAgeProfile | app.py:450-457 | Every string gets an age profile code in 1..4. |
| Codec.EncodeJobLevel | app.py:459-468 | Every string gets a job level code in 1..5. |
| Codec.EncodeBusinessTravel | app.py:470-475 | Every string gets a travel code in 1..3. |
| Codec.EncodeWorkLifeBalance | app.py:479-486 | Every string gets a balance code in 1..4. |
| Codec.EncodeJobSatisfaction | app.py:488-495 | Every string gets a job satisfaction code in 1..4. |
| Codec.EncodeEnvironmentSatisfaction | app.py:497-504 | Every string gets an environment satisfaction code in 1..4. |
| Codec.EncodeTrainingTimes | app.py:507-520 | Every string gets a training code in 0..6. |
| Codec.Encode | app.py:450-520 | Every ordinal field's codec lands in the field's range, from its first code to its top code. |
| Codec.Decode | app.py:430-445 | The reverse lookup is defined exactly on the field's code range and yields an offered choice. |
| Codec.ChainCode | app.py:450-520 | The reference chain gives each answer a code among the choice list's consecutive codes. |
| Codec.ChainDecode | app.py:430-445 | The reference decoder is defined exactly on the consecutive codes and yields a listed choice. |
| Codec.ChainCodeOfChoice | app.py:450-520 | With distinct choices, the i-th choice gets the first code plus i. |
| Codec.ChainCodeCatchAll | app.py:456-457 | An answer matching none of the tested choices falls to the `else` and gets the top code. |
| Codec.ChoicesDistinct | app.py:430-445 | The form offers no label twice in one field. |
| Codec.EncodeIsChain | app.py:450-520 | Each per-field chain equals the reference chain over the form's choices. |
| Codec.EncodeOffered | app.py:430-445 | The offered choices get consecutive codes, in form order, from the field's first code. |
| Codec.EncodeUnoffered | app.py:456-457 | Any string the form does not offer gets the field's top code. |
| Codec.DecodeEncode | app.py:450-520 | Decoding the code of an offered answer gives the answer back. |
| Codec.EncodeDecode | app.py:450-520 | Every code in range decodes to an offered answer that encodes back to it. |
| Codec.EncodeInjective | app.py:450-520 | No two offered answers of one field share a code. |
| Frames.DigitChar | app.py:395 | Digit d is printed as the d-th character of "0123456789". |
| Frames.Digits | app.py:395 | The decimal text of a natural number consists of digits, has no leading zero, has one digit exactly below 10, and reads back as the number. |
| Frames.DecimalString | app.py:395 | `str()` of an integer is a minus sign exactly for a negative number, then digits without a leading zero, and reads back as the number. |
| Frames.IndicatorName | app.py:395 | An indicator label starts with its field name followed by an underscore. |
| Frames.IndicatorNameReadsBack | app.py:395 | After the field name and underscore, the label is the value's decimal text, which reads back as the value. |
| Frames.IndicatorLabels | app.py:395 | The age profile codes 1..4 label "Age_Profile_1".."Age_Profile_4" and the travel codes 1..3 label "BusinessTravel_1".."BusinessTravel_3". |
| Frames.IndicatorNameInjective | app.py:395 | Two indicators of one field have the same label only for the same value. |
| Frames.Indicators | app.py:395 | Each expanded field yields the indicator label of its current value, in field order. |
| Frames.Without | app.py:395 | The kept columns are exactly the columns that are not expanded. |
| Frames.GetDummies | app.py:395 | After expansion the columns are the non-expanded ones, in their order, followed by one indicator per expanded field. Indicators hold 1 and the other cells are unchanged. |
| Frames.SetColumn | app.py:400 | Assigning a column sets that one cell; an existing column keeps its place and a new one is appended once at the end. |
| Frames.Select | app.py:404 | Selecting gives exactly the requested columns in the requested order, with their values. |
| Frames.Vector | app.py:553-556 | The row handed to the classifier has one value per column, the column's cell, in column order. |
| Frames.OneHotEncodeInput | app.py:393-406 | The aligned frame has exactly the training columns, in training order. A column the expansion produced keeps its value, every other training column is 0, and nothing else remains. |
| Prediction.BuildRecord | app.py:525-540 | The record has exactly the eleven keys, in dict order, and passes the two numbers through unchanged. |
| Prediction.FeatureSetIsFeatureNames | app.py:525-537 | The set of record keys holds exactly the names of the key sequence. |
| Prediction.RecordCell | app.py:525-537 | A record entry is empty exactly for a name that is not a record key, or for a number input left empty. |
| Prediction.RecordNumbersInRange | app.py:432-440 | Numbers within their inputs' bounds stay within them in the record; the bounds are assumed of the inputs, not checked by the pipeline. |
| Prediction.OrdinalCellIsEncoded | app.py:450-537 | Each ordinal answer is stored, encoded, under its key. |
| Prediction.RecordOrdinalCell | app.py:450-537 | Each ordinal cell holds a value in its field's range. An offered answer can be read back from it, and any other answer is stored as the top code. |
| Prediction.RecordBinaryCells | app.py:448-537 | The gender and overtime cells hold the binary codes and decode back to offered answers. |
| Prediction.RegressionFixture | app.py:448-537 | The fixture submission yields the record 1, 2, 1, 2500, 1, 1, 1, 1, 1, 0, 1 in key order. |
| Prediction.FixtureLeadingCells | app.py:448-537 | The fixture's first six cells hold their expected values. |
| Prediction.FixtureTrailingCells | app.py:448-537 | The fixture's last five cells hold their expected values. |
| Prediction.HasNull | app.py:545 | The missing-value test holds exactly when the record's row of values has a gap. |
| Prediction.NullCellIsNullValue | app.py:545 | A listed column without a value is the same as a gap in the row of values. |
| Prediction.Values | app.py:545-549 | A record without gaps keeps its columns and the value of every cell. |
| Prediction.NullOnlyFromNumbers | app.py:545-546 | The missing-value guard fires exactly when one of the two number inputs is empty. |
| Prediction.IndicatorIsNotAFeature | app.py:395 | No indicator label coincides with a record key. |
| Prediction.FeatureValueOffRecord | app.py:395-404 | A column that is not a record key is 1 exactly when it is a selected indicator, and 0 otherwise. |
| Prediction.AgeProfileIndicators | app.py:395-404 | Of the age profile indicators, exactly the selected one is 1 and the rest are 0. |
| Prediction.BusinessTravelIndicators | app.py:395-404 | Of the business travel indicators, exactly the selected one is 1 and the rest are 0. |
| Prediction.ExpandedRecord | app.py:393-406 | After the guard, the aligner's value for every column is the column's FeatureValue. |
| Prediction.ExpandedCell | app.py:393-406 | The same fact for a single column. |
| Prediction.ExpandedIndicators | app.py:395 | After the guard, the indicators are those of the encoded age profile and travel frequency. |
| Prediction.KeptCell | app.py:395-404 | A non-expanded record key carries its encoded value through alignment. |
| Prediction.KeptFeatureValue | app.py:525-537 | A non-expanded record key holds its FeatureValue in the record. |
| Prediction.SelectedIndicatorCell | app.py:395-404 | The selected indicators are 1 after alignment. |
| Prediction.SelectedFeatureValue | app.py:395 | A selected indicator's FeatureValue is 1. |
| Prediction.UnproducedCell | app.py:398-400 | A column the expansion did not produce is absent from it, and the aligner fills it with 0. |
| Prediction.UnproducedFeatureValue | app.py:398-400 | Such a column's FeatureValue is 0. |
| Prediction.PredictAttrition | app.py:545-571 | With a number missing the only outcome is "fill in all fields". Otherwise the row has one value per training column, equal to FeatureValue. Label 0 gives "likely to stay" and any other label gives "at risk of leaving". |

## Left out

- The Streamlit page (titles, text, widgets, navigation) is not modelled. The radio answers are string parameters and the two number inputs are optional integers.
- Loading the pickled model and reading the training column manifest are file I/O (app.py:388, 391). The column list and the classifier are parameters.
- The median `SimpleImputer` (app.py:552-553) is not modelled. It is floating-point library code, and it changes nothing on an aligned row without gaps, so the row goes to the classifier as aligned.
- `model.predict` is an opaque trained classifier. It is the parameter `predict`, and only its label 0 versus any other label matters.
- The notebook exports `streamlit/hr-attrition.py` and `streamline/hr-attrition.py`, and `load_data`, are CSV loading, plotting and clustering for display. They are not modelled.
- Frames.GetDummies: a frame is a map from label to cell, so an indicator whose label equals an existing column would merge with it, where pandas keeps two columns. `Prediction.IndicatorIsNotAFeature` shows that this cannot happen for the record built here.
- Frames.GetDummies: newer pandas versions give indicator columns a boolean dtype. The model stores them as the integer 1, which is how the classifier reads them.
- Categorical answers are always present strings, because a radio group always holds one of its choices. A label outside the offered choices falls to the catch-all `else`, as the code does. The code raises no error for an unknown or absent categorical answer.
- The number inputs as written always return a number, so in the source the missing-value guard never fires. The model keeps the numbers optional so that the guard and its message are modelled.
- Integer width is not modelled: Python integers are unbounded, and every value here is small.
