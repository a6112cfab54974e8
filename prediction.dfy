/**
  The attrition prediction pipeline: the form's answers are encoded into an
  eleven-field record, the record is checked for missing values, aligned to
  the training columns and handed to the trained classifier, whose label
  selects the message shown.

  The classifier is opaque: it is a parameter `predict` that maps the row of
  numbers to a label. The median imputer in front of it is the identity here,
  since an aligned row has no gaps, and is not modelled.
*/
module Prediction {
  import opened Optional
  import opened Codec
  import opened Frames

  /** One submission of the form. The radio buttons always hold one of
      their strings; the two number inputs may be empty. */
  datatype FormAnswers = FormAnswers(
    gender: string,
    ageProfile: string,
    jobLevel: string,
    monthlyIncome: Option<int>,
    businessTravel: string,
    overTime: string,
    workLifeBalance: string,
    trainingTimesLastYear: string,
    yearsAtCompany: Option<int>,
    jobSatisfaction: string,
    environmentSatisfaction: string)

  /** The keys of the encoded record, in the order the record lists them. */
  const FeatureNames: seq<string> := [
    "Gender", "Age_Profile", "JobLevel", "MonthlyIncome", "BusinessTravel", "OverTime",
    "WorkLifeBalance", "JobSatisfaction", "EnvironmentSatisfaction",
    "TrainingTimesLastYear", "YearsAtCompany"]

  /** The nominal fields that are one-hot expanded before alignment. */
  const ExpandedFields: seq<string> := ["Age_Profile", "BusinessTravel"]

  // The bounds of the two number inputs of the form.
  const MinMonthlyIncome := 1009
  const MaxMonthlyIncome := 19999
  const MinYearsAtCompany := 0
  const MaxYearsAtCompany := 40

  /** The message the prediction page ends with. */
  datatype Verdict = FillInAllFields | LikelyToStay | AtRiskOfLeaving

  /* ---------------------------------------------------------------------
     Feature vector builder
     --------------------------------------------------------------------- */

  /** The record of encoded answers, one key per feature. */
  function BuildRecord(a: FormAnswers): (r: Frame<Option<int>>)
    ensures WellFormed(r) && r.columns == FeatureNames
    ensures r.cells["MonthlyIncome"] == a.monthlyIncome
    ensures r.cells["YearsAtCompany"] == a.yearsAtCompany
  {
    Frame(FeatureNames, map key | key in FeatureSet :: RecordCell(a, key))
  }

  /** The record keys as a set: the same names as FeatureNames, written out
      as a set display because lookups in it are much cheaper for the solver
      than membership in the sequence. FeatureSetIsFeatureNames ties the two. */
  const FeatureSet: set<string> := {
    "Gender", "Age_Profile", "JobLevel", "MonthlyIncome", "BusinessTravel", "OverTime",
    "WorkLifeBalance", "JobSatisfaction", "EnvironmentSatisfaction",
    "TrainingTimesLastYear", "YearsAtCompany"}

  lemma FeatureSetIsFeatureNames()
    ensures forall c :: c in FeatureSet <==> c in FeatureNames
  {
  }

  /** The value the record holds under `key`: the encoded answer for a
      categorical field, the number as entered for a numeric one. */
  function RecordCell(a: FormAnswers, key: string): (cell: Option<int>)
    ensures cell.None? <==>
              key !in FeatureSet
              || (key == "MonthlyIncome" && a.monthlyIncome.None?)
              || (key == "YearsAtCompany" && a.yearsAtCompany.None?)
  {
    if key == "Gender" then Some(EncodeGender(a.gender))
    else if key == "Age_Profile" then Some(EncodeAgeProfile(a.ageProfile))
    else if key == "JobLevel" then Some(EncodeJobLevel(a.jobLevel))
    else if key == "MonthlyIncome" then a.monthlyIncome
    else if key == "BusinessTravel" then Some(EncodeBusinessTravel(a.businessTravel))
    else if key == "OverTime" then Some(EncodeOverTime(a.overTime))
    else if key == "WorkLifeBalance" then Some(EncodeWorkLifeBalance(a.workLifeBalance))
    else if key == "JobSatisfaction" then Some(EncodeJobSatisfaction(a.jobSatisfaction))
    else if key == "EnvironmentSatisfaction" then
      Some(EncodeEnvironmentSatisfaction(a.environmentSatisfaction))
    else if key == "TrainingTimesLastYear" then Some(EncodeTrainingTimes(a.trainingTimesLastYear))
    else if key == "YearsAtCompany" then a.yearsAtCompany
    else None
  }

  /** The bounds the two number inputs enforce on what they return. */
  predicate InWidgetRange(a: FormAnswers) {
    && (a.monthlyIncome.Some? ==>
          MinMonthlyIncome <= a.monthlyIncome.value <= MaxMonthlyIncome)
    && (a.yearsAtCompany.Some? ==>
          MinYearsAtCompany <= a.yearsAtCompany.value <= MaxYearsAtCompany)
  }

  /** The numeric cells hold the numbers as entered, so they stay within the
      bounds of their inputs. The bounds themselves are an assumption about
      the number inputs, which enforce them; the pipeline does not check them. */
  lemma RecordNumbersInRange(a: FormAnswers)
    requires InWidgetRange(a)
    ensures var cells := BuildRecord(a).cells;
      && (cells["MonthlyIncome"].Some? ==>
            MinMonthlyIncome <= cells["MonthlyIncome"].value <= MaxMonthlyIncome)
      && (cells["YearsAtCompany"].Some? ==>
            MinYearsAtCompany <= cells["YearsAtCompany"].value <= MaxYearsAtCompany)
  {
  }

  /** The record key of each ordinal field. */
  function ColumnName(f: Ordinal): string {
    match f
    case AgeProfile => "Age_Profile"
    case JobLevel => "JobLevel"
    case BusinessTravel => "BusinessTravel"
    case WorkLifeBalance => "WorkLifeBalance"
    case JobSatisfaction => "JobSatisfaction"
    case EnvironmentSatisfaction => "EnvironmentSatisfaction"
    case TrainingTimesLastYear => "TrainingTimesLastYear"
  }

  /** The answer given for each ordinal field. */
  function OrdinalAnswer(a: FormAnswers, f: Ordinal): string {
    match f
    case AgeProfile => a.ageProfile
    case JobLevel => a.jobLevel
    case BusinessTravel => a.businessTravel
    case WorkLifeBalance => a.workLifeBalance
    case JobSatisfaction => a.jobSatisfaction
    case EnvironmentSatisfaction => a.environmentSatisfaction
    case TrainingTimesLastYear => a.trainingTimesLastYear
  }

  /** Every ordinal cell of the record is present and in its field's range;
      an offered answer can be read back from its cell, and any other answer
      is stored as the field's top code. */
  lemma RecordOrdinalCell(a: FormAnswers, f: Ordinal)
    ensures ColumnName(f) in BuildRecord(a).cells
    ensures var cell := BuildRecord(a).cells[ColumnName(f)];
      && cell.Some?
      && FirstCode(f) <= cell.value <= TopCode(f)
      && (OrdinalAnswer(a, f) in Choices(f) ==> Decode(f, cell.value) == Some(OrdinalAnswer(a, f)))
      && (OrdinalAnswer(a, f) !in Choices(f) ==> cell.value == TopCode(f))
  {
    var answer := OrdinalAnswer(a, f);
    OrdinalCellIsEncoded(a, f);
    if answer in Choices(f) {
      DecodeEncode(f, answer);
    } else {
      EncodeUnoffered(f, answer);
    }
  }

  /** The record stores each ordinal answer under its key, encoded. */
  lemma OrdinalCellIsEncoded(a: FormAnswers, f: Ordinal)
    ensures ColumnName(f) in BuildRecord(a).cells
    ensures BuildRecord(a).cells[ColumnName(f)] == Some(Encode(f, OrdinalAnswer(a, f)))
  {
    var cells := BuildRecord(a).cells;
    match f
    case AgeProfile => assert cells["Age_Profile"] == Some(EncodeAgeProfile(a.ageProfile));
    case JobLevel => assert cells["JobLevel"] == Some(EncodeJobLevel(a.jobLevel));
    case BusinessTravel => assert cells["BusinessTravel"] == Some(EncodeBusinessTravel(a.businessTravel));
    case WorkLifeBalance => assert cells["WorkLifeBalance"] == Some(EncodeWorkLifeBalance(a.workLifeBalance));
    case JobSatisfaction => assert cells["JobSatisfaction"] == Some(EncodeJobSatisfaction(a.jobSatisfaction));
    case EnvironmentSatisfaction =>
      assert cells["EnvironmentSatisfaction"] == Some(EncodeEnvironmentSatisfaction(a.environmentSatisfaction));
    case TrainingTimesLastYear =>
      assert cells["TrainingTimesLastYear"] == Some(EncodeTrainingTimes(a.trainingTimesLastYear));
  }

  /** The two binary cells are present and read back as their answers. */
  lemma RecordBinaryCells(a: FormAnswers)
    ensures BuildRecord(a).cells["Gender"] == Some(if a.gender == "Male" then 1 else 0)
    ensures BuildRecord(a).cells["OverTime"] == Some(if a.overTime == "Yes" then 1 else 0)
    ensures a.gender in GenderChoices ==>
              DecodeGender(BuildRecord(a).cells["Gender"].value) == Some(a.gender)
    ensures a.overTime in OverTimeChoices ==>
              DecodeOverTime(BuildRecord(a).cells["OverTime"].value) == Some(a.overTime)
  {
    GenderRoundTrip(a.gender, 0);
    OverTimeRoundTrip(a.overTime, 0);
  }

  /** The submission of the regression fixture. */
  const FixtureAnswers := FormAnswers("Male", "Adult (26-44)", "Entry-Level", Some(2500),
                                      "Rarely", "Yes", "Bad", "None", Some(1), "Low", "Low")

  /** The regression fixture: the record of one complete submission, read in
      the record's key order. */
  lemma RegressionFixture()
    ensures RecordValues(BuildRecord(FixtureAnswers)) ==
              [Some(1), Some(2), Some(1), Some(2500), Some(1), Some(1),
               Some(1), Some(1), Some(1), Some(0), Some(1)]
  {
    FixtureLeadingCells();
    FixtureTrailingCells();
  }

  /** The fixture's first six cells. */
  lemma FixtureLeadingCells()
    ensures var cells := BuildRecord(FixtureAnswers).cells;
      && cells["Gender"] == Some(1) && cells["Age_Profile"] == Some(2)
      && cells["JobLevel"] == Some(1) && cells["MonthlyIncome"] == Some(2500)
      && cells["BusinessTravel"] == Some(1) && cells["OverTime"] == Some(1)
  {
  }

  /** The fixture's last five cells. */
  lemma FixtureTrailingCells()
    ensures var cells := BuildRecord(FixtureAnswers).cells;
      && cells["WorkLifeBalance"] == Some(1) && cells["JobSatisfaction"] == Some(1)
      && cells["EnvironmentSatisfaction"] == Some(1)
      && cells["TrainingTimesLastYear"] == Some(0) && cells["YearsAtCompany"] == Some(1)
  {
  }

  /** The cells of a record in column order. */
  function RecordValues(r: Frame<Option<int>>): seq<Option<int>>
    requires WellFormed(r)
  {
    seq(|r.columns|, i requires 0 <= i < |r.columns| => r.cells[r.columns[i]])
  }

  /* ---------------------------------------------------------------------
     Missing-value guard
     --------------------------------------------------------------------- */

  /** Some cell of the record holds no value. */
  predicate HasNull(r: Frame<Option<int>>)
    requires WellFormed(r)
    ensures HasNull(r) <==> None in RecordValues(r)
  {
    NullCellIsNullValue(r);
    exists c | c in r.columns :: c in r.cells && r.cells[c].None?
  }

  /** A listed column holds no value exactly when the row of values has a gap. */
  lemma NullCellIsNullValue(r: Frame<Option<int>>)
    requires WellFormed(r)
    ensures (exists c | c in r.columns :: c in r.cells && r.cells[c].None?) <==>
            None in RecordValues(r)
  {
    var v := RecordValues(r);
    if exists c | c in r.columns :: c in r.cells && r.cells[c].None? {
      var c :| c in r.columns && c in r.cells && r.cells[c].None?;
      var i :| 0 <= i < |r.columns| && r.columns[i] == c;
      assert v[i] == None;
    }
    if None in v {
      var i :| 0 <= i < |v| && v[i] == None;
      assert r.columns[i] in r.columns;
    }
  }

  /** The record with every cell known to hold a value. */
  function Values(r: Frame<Option<int>>): (v: Frame<int>)
    requires WellFormed(r) && !HasNull(r)
    ensures WellFormed(v) && v.columns == r.columns
    ensures forall c | c in v.cells :: r.cells[c] == Some(v.cells[c])
  {
    Frame(r.columns, map c | c in r.cells :: r.cells[c].value)
  }

  /** The categorical codecs always give a value, so the guard fires exactly
      when one of the two number inputs is empty. */
  lemma NullOnlyFromNumbers(a: FormAnswers)
    ensures HasNull(BuildRecord(a)) <==> a.monthlyIncome.None? || a.yearsAtCompany.None?
  {
    var r := BuildRecord(a);
    if a.monthlyIncome.None? {
      assert "MonthlyIncome" in r.columns;
    }
    if a.yearsAtCompany.None? {
      assert "YearsAtCompany" in r.columns;
    }
  }

  /* ---------------------------------------------------------------------
     The model's view: the value of each training column
     --------------------------------------------------------------------- */

  /** What the model receives in a training column, given the answers: the
      encoded value for a field that is not expanded, 1 for the indicator of
      the selected age profile or travel frequency, and 0 for anything else
      (the other indicators, the expanded fields' own names, and any column
      no answer produces). */
  function FeatureValue(a: FormAnswers, income: int, years: int, column: string): int {
    if column == "Gender" then EncodeGender(a.gender)
    else if column == "JobLevel" then EncodeJobLevel(a.jobLevel)
    else if column == "MonthlyIncome" then income
    else if column == "OverTime" then EncodeOverTime(a.overTime)
    else if column == "WorkLifeBalance" then EncodeWorkLifeBalance(a.workLifeBalance)
    else if column == "JobSatisfaction" then EncodeJobSatisfaction(a.jobSatisfaction)
    else if column == "EnvironmentSatisfaction" then
      EncodeEnvironmentSatisfaction(a.environmentSatisfaction)
    else if column == "TrainingTimesLastYear" then EncodeTrainingTimes(a.trainingTimesLastYear)
    else if column == "YearsAtCompany" then years
    else if column == IndicatorName("Age_Profile", EncodeAgeProfile(a.ageProfile)) then 1
    else if column == IndicatorName("BusinessTravel", EncodeBusinessTravel(a.businessTravel)) then 1
    else 0
  }

  function FeatureVector(a: FormAnswers, income: int, years: int, columns: seq<string>): seq<int> {
    seq(|columns|, i requires 0 <= i < |columns| => FeatureValue(a, income, years, columns[i]))
  }

  /** No indicator label coincides with a record key. */
  lemma IndicatorIsNotAFeature(field: string, v: int)
    requires field in ExpandedFields
    ensures IndicatorName(field, v) !in FeatureNames
  {
    var name := IndicatorName(field, v);
    assert name[0] == field[0];
    NoFeatureLike(name);
  }

  /** A label that starts like an expanded field but is longer than it is
      not a record key. A proof helper only: comparing first characters and
      lengths keeps IndicatorIsNotAFeature cheap to prove. */
  lemma NoFeatureLike(name: string)
    requires || (|name| > |"Age_Profile"| && name[0] == 'A')
             || (|name| > |"BusinessTravel"| && name[0] == 'B')
    ensures name !in FeatureNames
  {
  }

  /** A column that is not a record key is 1 exactly when it is one of the
      two selected indicators. */
  lemma FeatureValueOffRecord(a: FormAnswers, income: int, years: int, column: string)
    requires column !in FeatureNames
    ensures FeatureValue(a, income, years, column) ==
              if column == IndicatorName("Age_Profile", EncodeAgeProfile(a.ageProfile))
                 || column == IndicatorName("BusinessTravel", EncodeBusinessTravel(a.businessTravel))
              then 1 else 0
  {
  }

  /** Of the age profile indicators, exactly the selected one is 1. */
  lemma AgeProfileIndicators(a: FormAnswers, income: int, years: int, k: int)
    ensures FeatureValue(a, income, years, IndicatorName("Age_Profile", k)) ==
              if k == EncodeAgeProfile(a.ageProfile) then 1 else 0
  {
    var name := IndicatorName("Age_Profile", k);
    IndicatorIsNotAFeature("Age_Profile", k);
    FeatureValueOffRecord(a, income, years, name);
    if name == IndicatorName("Age_Profile", EncodeAgeProfile(a.ageProfile)) {
      IndicatorNameInjective("Age_Profile", k, EncodeAgeProfile(a.ageProfile));
    }
    assert name[0] != IndicatorName("BusinessTravel", EncodeBusinessTravel(a.businessTravel))[0];
  }

  /** Of the business travel indicators, exactly the selected one is 1. */
  lemma BusinessTravelIndicators(a: FormAnswers, income: int, years: int, k: int)
    ensures FeatureValue(a, income, years, IndicatorName("BusinessTravel", k)) ==
              if k == EncodeBusinessTravel(a.businessTravel) then 1 else 0
  {
    var name := IndicatorName("BusinessTravel", k);
    IndicatorIsNotAFeature("BusinessTravel", k);
    FeatureValueOffRecord(a, income, years, name);
    if name == IndicatorName("BusinessTravel", EncodeBusinessTravel(a.businessTravel)) {
      IndicatorNameInjective("BusinessTravel", k, EncodeBusinessTravel(a.businessTravel));
    }
    assert name[0] != IndicatorName("Age_Profile", EncodeAgeProfile(a.ageProfile))[0];
  }

  /** The record after the guard, one-hot expanded: the frame the aligner
      projects onto the training columns. */
  function Expanded(a: FormAnswers): Frame<int>
    requires !HasNull(BuildRecord(a))
  {
    var data := Values(BuildRecord(a));
    assert "Age_Profile" in data.cells && "BusinessTravel" in data.cells;
    GetDummies(data, ExpandedFields)
  }

  /** What the aligner puts in training column `c`: the expanded record's
      cell, or 0 when the expansion did not produce `c`. */
  function ExpandedAt(a: FormAnswers, c: string): int
    requires !HasNull(BuildRecord(a))
  {
    var e := Expanded(a);
    if c in e.cells then e.cells[c] else 0
  }

  /** After the guard, the aligner's value for every column is FeatureValue. */
  lemma ExpandedRecord(a: FormAnswers, income: int, years: int)
    requires a.monthlyIncome == Some(income) && a.yearsAtCompany == Some(years)
    ensures !HasNull(BuildRecord(a))
    ensures forall c :: ExpandedAt(a, c) == FeatureValue(a, income, years, c)
  {
    NullOnlyFromNumbers(a);
    forall c ensures ExpandedAt(a, c) == FeatureValue(a, income, years, c) {
      ExpandedCell(a, income, years, c);
    }
  }

  /** The aligner's value for one column, against FeatureValue. */
  lemma ExpandedCell(a: FormAnswers, income: int, years: int, c: string)
    requires a.monthlyIncome == Some(income) && a.yearsAtCompany == Some(years)
    requires !HasNull(BuildRecord(a))
    ensures ExpandedAt(a, c) == FeatureValue(a, income, years, c)
  {
    var age := IndicatorName("Age_Profile", EncodeAgeProfile(a.ageProfile));
    var travel := IndicatorName("BusinessTravel", EncodeBusinessTravel(a.businessTravel));
    if c in FeatureNames && c !in ExpandedFields {
      KeptCell(a, income, years, c);
    } else if c == age || c == travel {
      SelectedIndicatorCell(a, income, years, c);
    } else {
      UnproducedCell(a, income, years, c);
    }
  }

  /** After the guard, the indicators are the labels of the encoded age
      profile and travel frequency. */
  lemma ExpandedIndicators(a: FormAnswers)
    requires !HasNull(BuildRecord(a))
    ensures var data := Values(BuildRecord(a));
      && (forall f | f in ExpandedFields :: f in data.cells)
      && Indicators(data, ExpandedFields) ==
           [IndicatorName("Age_Profile", EncodeAgeProfile(a.ageProfile)),
            IndicatorName("BusinessTravel", EncodeBusinessTravel(a.businessTravel))]
  {
    var record := BuildRecord(a);
    var data := Values(record);
    assert record.cells["Age_Profile"] == Some(EncodeAgeProfile(a.ageProfile));
    assert record.cells["BusinessTravel"] == Some(EncodeBusinessTravel(a.businessTravel));
    assert ExpandedFields[0] == "Age_Profile" && ExpandedFields[1] == "BusinessTravel";
    assert "Age_Profile" in data.cells && "BusinessTravel" in data.cells;
    var indicators := Indicators(data, ExpandedFields);
    assert indicators[0] == IndicatorName("Age_Profile", EncodeAgeProfile(a.ageProfile));
    assert indicators[1] == IndicatorName("BusinessTravel", EncodeBusinessTravel(a.businessTravel));
  }

  /** A record key that is not expanded passes through with its value. */
  lemma KeptCell(a: FormAnswers, income: int, years: int, c: string)
    requires a.monthlyIncome == Some(income) && a.yearsAtCompany == Some(years)
    requires !HasNull(BuildRecord(a))
    requires c in FeatureNames && c !in ExpandedFields
    ensures ExpandedAt(a, c) == FeatureValue(a, income, years, c)
  {
    var data := Values(BuildRecord(a));
    ExpandedIndicators(a);
    IndicatorIsNotAFeature("Age_Profile", EncodeAgeProfile(a.ageProfile));
    IndicatorIsNotAFeature("BusinessTravel", EncodeBusinessTravel(a.businessTravel));
    assert c !in Indicators(data, ExpandedFields);
    assert Expanded(a).cells[c] == data.cells[c];
    KeptFeatureValue(a, income, years, c);
  }

  /** A record key that is not expanded carries its FeatureValue. */
  lemma KeptFeatureValue(a: FormAnswers, income: int, years: int, c: string)
    requires a.monthlyIncome == Some(income) && a.yearsAtCompany == Some(years)
    requires c in FeatureNames && c !in ExpandedFields
    ensures BuildRecord(a).cells[c] == Some(FeatureValue(a, income, years, c))
  {
  }

  /** The selected indicators carry 1. */
  lemma SelectedIndicatorCell(a: FormAnswers, income: int, years: int, c: string)
    requires !HasNull(BuildRecord(a))
    requires c == IndicatorName("Age_Profile", EncodeAgeProfile(a.ageProfile))
          || c == IndicatorName("BusinessTravel", EncodeBusinessTravel(a.businessTravel))
    ensures ExpandedAt(a, c) == FeatureValue(a, income, years, c) == 1
  {
    ExpandedIndicators(a);
    assert c in Indicators(Values(BuildRecord(a)), ExpandedFields);
    SelectedFeatureValue(a, income, years, c);
  }

  /** In the model's view a selected indicator is 1. */
  lemma SelectedFeatureValue(a: FormAnswers, income: int, years: int, c: string)
    requires c == IndicatorName("Age_Profile", EncodeAgeProfile(a.ageProfile))
          || c == IndicatorName("BusinessTravel", EncodeBusinessTravel(a.businessTravel))
    ensures FeatureValue(a, income, years, c) == 1
  {
    if c == IndicatorName("Age_Profile", EncodeAgeProfile(a.ageProfile)) {
      IndicatorIsNotAFeature("Age_Profile", EncodeAgeProfile(a.ageProfile));
    } else {
      IndicatorIsNotAFeature("BusinessTravel", EncodeBusinessTravel(a.businessTravel));
    }
    assert c !in FeatureNames;
  }

  /** A column that is neither a non-expanded record key nor a selected
      indicator is absent after expansion, so the aligner fills it with 0. */
  lemma UnproducedCell(a: FormAnswers, income: int, years: int, c: string)
    requires !HasNull(BuildRecord(a))
    requires !(c in FeatureNames && c !in ExpandedFields)
    requires c != IndicatorName("Age_Profile", EncodeAgeProfile(a.ageProfile))
    requires c != IndicatorName("BusinessTravel", EncodeBusinessTravel(a.businessTravel))
    ensures c !in Expanded(a).cells
    ensures ExpandedAt(a, c) == FeatureValue(a, income, years, c) == 0
  {
    var data := Values(BuildRecord(a));
    ExpandedIndicators(a);
    assert c in data.cells <==> c in FeatureNames;
    assert c !in Indicators(data, ExpandedFields);
    UnproducedFeatureValue(a, income, years, c);
  }

  /** Such a column carries 0 in the model's view. */
  lemma UnproducedFeatureValue(a: FormAnswers, income: int, years: int, c: string)
    requires !(c in FeatureNames && c !in ExpandedFields)
    requires c != IndicatorName("Age_Profile", EncodeAgeProfile(a.ageProfile))
    requires c != IndicatorName("BusinessTravel", EncodeBusinessTravel(a.businessTravel))
    ensures FeatureValue(a, income, years, c) == 0
  {
  }

  /* ---------------------------------------------------------------------
     The pipeline
     --------------------------------------------------------------------- */

  /** One press of the predict button. When a number input is empty only
      the "fill in all fields" message results. Otherwise the row handed to
      the classifier has one entry per training column, in training order,
      with the values FeatureValue gives; label 0 means the employee is
      likely to stay and any other label that they are at risk of leaving. */
  method PredictAttrition(a: FormAnswers, columns: seq<string>, predict: seq<int> -> int)
    returns (verdict: Verdict)
    ensures verdict == FillInAllFields <==> a.monthlyIncome.None? || a.yearsAtCompany.None?
    ensures a.monthlyIncome.Some? && a.yearsAtCompany.Some? ==>
              var row := FeatureVector(a, a.monthlyIncome.value, a.yearsAtCompany.value, columns);
              && |row| == |columns|
              && (verdict == LikelyToStay <==> predict(row) == 0)
              && (verdict == AtRiskOfLeaving <==> predict(row) != 0)
  {
    var record := BuildRecord(a);
    NullOnlyFromNumbers(a);
    if HasNull(record) {
      verdict := FillInAllFields;
    } else {
      var income, years := a.monthlyIncome.value, a.yearsAtCompany.value;
      ExpandedRecord(a, income, years);
      var aligned := OneHotEncodeInput(Values(record), ExpandedFields, columns);
      var row := Vector(aligned);
      assert row == FeatureVector(a, income, years, columns);
      var prediction := predict(row);
      if prediction == 0 {
        verdict := LikelyToStay;
      } else {
        verdict := AtRiskOfLeaving;
      }
    }
  }
}
