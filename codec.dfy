/**
  The label codecs of the attrition prediction form.

  Every answer of the form is a string; before the answers reach the model
  each categorical one is replaced by an integer code. The binary fields
  compare against one reference answer; the ordinal fields run an if/elif
  chain over the labels the form offers, in the order the form lists them,
  and end in a catch-all `else`. So every codec is total over ALL strings:
  a label the form never offers gets the field's top code.
*/
module Codec {
  import opened Optional

  // The choices the form offers for each categorical field, in form order.
  const GenderChoices: seq<string> := ["Male", "Female"]
  const AgeProfileChoices: seq<string> :=
    ["Young Adult (18-25)", "Adult (26-44)", "Middle-age (45-59)", "Old age (60+)"]
  const JobLevelChoices: seq<string> := ["Entry-Level", "Junior", "Middle", "Senior", "Executive"]
  const BusinessTravelChoices: seq<string> := ["Rarely", "Frequently", "Non-Travel"]
  const OverTimeChoices: seq<string> := ["No", "Yes"]
  const WorkLifeBalanceChoices: seq<string> := ["Bad", "Good", "Better", "Best"]
  const TrainingChoices: seq<string> := ["None", "1-2", "3-4", "5-6", "7-8", "9-10", "More than 10"]
  // Job satisfaction and environment satisfaction share one scale.
  const SatisfactionChoices: seq<string> := ["Low", "Medium", "High", "Very High"]

  /* ---------------------------------------------------------------------
     Binary fields
     --------------------------------------------------------------------- */

  /** Gender: "Male" is the reference label; every other string is 0. */
  function EncodeGender(answer: string): (code: int)
    ensures code == 0 || code == 1
    ensures code == 1 <==> answer == "Male"
  {
    if answer == "Male" then 1 else 0
  }

  /** OverTime: "Yes" is the reference label; every other string is 0. */
  function EncodeOverTime(answer: string): (code: int)
    ensures code == 0 || code == 1
    ensures code == 1 <==> answer == "Yes"
  {
    if answer == "Yes" then 1 else 0
  }

  /** Reverse lookup of a gender code among the offered choices. */
  function DecodeGender(code: int): (answer: Option<string>)
    ensures answer.Some? <==> code == 0 || code == 1
    ensures answer.Some? ==> answer.value in GenderChoices
  {
    if code == 1 then Some("Male") else if code == 0 then Some("Female") else None
  }

  /** Reverse lookup of an overtime code among the offered choices. */
  function DecodeOverTime(code: int): (answer: Option<string>)
    ensures answer.Some? <==> code == 0 || code == 1
    ensures answer.Some? ==> answer.value in OverTimeChoices
  {
    if code == 1 then Some("Yes") else if code == 0 then Some("No") else None
  }

  /** Both offered gender labels survive an encode/decode round trip, and so
      does every code in {0, 1} the other way round. */
  lemma GenderRoundTrip(answer: string, code: int)
    ensures answer in GenderChoices ==> DecodeGender(EncodeGender(answer)) == Some(answer)
    ensures DecodeGender(code).Some? ==> EncodeGender(DecodeGender(code).value) == code
  {
  }

  /** Both offered overtime labels survive an encode/decode round trip, and so
      does every code in {0, 1} the other way round. */
  lemma OverTimeRoundTrip(answer: string, code: int)
    ensures answer in OverTimeChoices ==> DecodeOverTime(EncodeOverTime(answer)) == Some(answer)
    ensures DecodeOverTime(code).Some? ==> EncodeOverTime(DecodeOverTime(code).value) == code
  {
  }

  /* ---------------------------------------------------------------------
     Ordinal fields: one if/elif/else chain per field
     --------------------------------------------------------------------- */

  function EncodeAgeProfile(answer: string): (code: int)
    ensures 1 <= code <= 4
  {
    if answer == "Young Adult (18-25)" then 1
    else if answer == "Adult (26-44)" then 2
    else if answer == "Middle-age (45-59)" then 3
    else 4
  }

  function EncodeJobLevel(answer: string): (code: int)
    ensures 1 <= code <= 5
  {
    if answer == "Entry-Level" then 1
    else if answer == "Junior" then 2
    else if answer == "Middle" then 3
    else if answer == "Senior" then 4
    else 5
  }

  function EncodeBusinessTravel(answer: string): (code: int)
    ensures 1 <= code <= 3
  {
    if answer == "Rarely" then 1
    else if answer == "Frequently" then 2
    else 3
  }

  function EncodeWorkLifeBalance(answer: string): (code: int)
    ensures 1 <= code <= 4
  {
    if answer == "Bad" then 1
    else if answer == "Good" then 2
    else if answer == "Better" then 3
    else 4
  }

  function EncodeJobSatisfaction(answer: string): (code: int)
    ensures 1 <= code <= 4
  {
    if answer == "Low" then 1
    else if answer == "Medium" then 2
    else if answer == "High" then 3
    else 4
  }

  function EncodeEnvironmentSatisfaction(answer: string): (code: int)
    ensures 1 <= code <= 4
  {
    if answer == "Low" then 1
    else if answer == "Medium" then 2
    else if answer == "High" then 3
    else 4
  }

  function EncodeTrainingTimes(answer: string): (code: int)
    ensures 0 <= code <= 6
  {
    if answer == "None" then 0
    else if answer == "1-2" then 1
    else if answer == "3-4" then 2
    else if answer == "5-6" then 3
    else if answer == "7-8" then 4
    else if answer == "9-10" then 5
    else 6
  }

  /* ---------------------------------------------------------------------
     The ordinal fields as data: choice list and first code
     --------------------------------------------------------------------- */

  datatype Ordinal =
    | AgeProfile | JobLevel | BusinessTravel | WorkLifeBalance
    | JobSatisfaction | EnvironmentSatisfaction | TrainingTimesLastYear

  function Choices(f: Ordinal): (s: seq<string>)
    ensures |s| >= 3
  {
    match f
    case AgeProfile => AgeProfileChoices
    case JobLevel => JobLevelChoices
    case BusinessTravel => BusinessTravelChoices
    case WorkLifeBalance => WorkLifeBalanceChoices
    case JobSatisfaction => SatisfactionChoices
    case EnvironmentSatisfaction => SatisfactionChoices
    case TrainingTimesLastYear => TrainingChoices
  }

  /** Training counts start at 0; every other ordinal scale starts at 1. */
  function FirstCode(f: Ordinal): int {
    if f == TrainingTimesLastYear then 0 else 1
  }

  function TopCode(f: Ordinal): int {
    FirstCode(f) + |Choices(f)| - 1
  }

  /** The codec of an ordinal field, as written per field. */
  function Encode(f: Ordinal, answer: string): (code: int)
    ensures FirstCode(f) <= code <= TopCode(f)
  {
    match f
    case AgeProfile => EncodeAgeProfile(answer)
    case JobLevel => EncodeJobLevel(answer)
    case BusinessTravel => EncodeBusinessTravel(answer)
    case WorkLifeBalance => EncodeWorkLifeBalance(answer)
    case JobSatisfaction => EncodeJobSatisfaction(answer)
    case EnvironmentSatisfaction => EncodeEnvironmentSatisfaction(answer)
    case TrainingTimesLastYear => EncodeTrainingTimes(answer)
  }

  /** Reverse lookup: the offered label that carries `code`, if any. */
  function Decode(f: Ordinal, code: int): (answer: Option<string>)
    ensures answer.Some? <==> FirstCode(f) <= code <= TopCode(f)
    ensures answer.Some? ==> answer.value in Choices(f)
  {
    ChainDecode(Choices(f), FirstCode(f), code)
  }

  /* ---------------------------------------------------------------------
     Reference definition: an if/elif chain over a choice list
     --------------------------------------------------------------------- */

  ghost predicate Distinct(s: seq<string>) {
    forall i, j | 0 <= i < j < |s| :: s[i] != s[j]
  }

  /** The chain `if answer == choices[0]: first elif ... else: last code`:
      every choice but the last is tested in order, and the last shares the
      code of the catch-all `else`. */
  function ChainCode(choices: seq<string>, first: int, answer: string): (code: int)
    requires |choices| > 0
    ensures first <= code < first + |choices|
    decreases |choices|
  {
    if |choices| == 1 || answer == choices[0] then first
    else ChainCode(choices[1..], first + 1, answer)
  }

  /** The choice that `code` stands for, counting from `first`. */
  function ChainDecode(choices: seq<string>, first: int, code: int): (answer: Option<string>)
    ensures answer.Some? <==> first <= code < first + |choices|
    ensures answer.Some? ==> answer.value in choices
  {
    if first <= code < first + |choices| then Some(choices[code - first]) else None
  }

  /** With distinct choices, the i-th choice gets code first + i. */
  lemma {:induction false} ChainCodeOfChoice(choices: seq<string>, first: int, i: int)
    requires Distinct(choices) && 0 <= i < |choices|
    ensures ChainCode(choices, first, choices[i]) == first + i
    decreases i
  {
    if i > 0 {
      assert choices[i] != choices[0];
      assert choices[i] == choices[1..][i - 1];
      ChainCodeOfChoice(choices[1..], first + 1, i - 1);
    }
  }

  /** An answer that matches none of the tested choices (all but the last)
      falls through to the catch-all and gets the top code. */
  lemma {:induction false} ChainCodeCatchAll(choices: seq<string>, first: int, answer: string)
    requires |choices| > 0 && answer !in choices[..|choices| - 1]
    ensures ChainCode(choices, first, answer) == first + |choices| - 1
    decreases |choices|
  {
    if |choices| > 1 {
      assert answer != choices[..|choices| - 1][0];
      assert choices[1..][..|choices| - 2] == choices[1..|choices| - 1];
      ChainCodeCatchAll(choices[1..], first + 1, answer);
    }
  }

  /* ---------------------------------------------------------------------
     Properties of the ordinal codecs
     --------------------------------------------------------------------- */

  lemma ChoicesDistinct(f: Ordinal)
    ensures Distinct(Choices(f))
  {
  }

  /** Each per-field chain is exactly the chain over the form's choices. */
  lemma EncodeIsChain(f: Ordinal, answer: string)
    ensures Encode(f, answer) == ChainCode(Choices(f), FirstCode(f), answer)
  {
  }

  /** The offered choices get consecutive codes, in the order the form lists
      them, starting at the field's first code. */
  lemma EncodeOffered(f: Ordinal, i: int)
    requires 0 <= i < |Choices(f)|
    ensures Encode(f, Choices(f)[i]) == FirstCode(f) + i
  {
    EncodeIsChain(f, Choices(f)[i]);
    ChoicesDistinct(f);
    ChainCodeOfChoice(Choices(f), FirstCode(f), i);
  }

  /** An answer the form does not offer gets the field's top code. */
  lemma EncodeUnoffered(f: Ordinal, answer: string)
    requires answer !in Choices(f)
    ensures Encode(f, answer) == TopCode(f)
  {
    var s := Choices(f);
    assert answer !in s[..|s| - 1];
    EncodeIsChain(f, answer);
    ChainCodeCatchAll(s, FirstCode(f), answer);
  }

  /** Encoding an offered answer and decoding the code gives the answer back. */
  lemma DecodeEncode(f: Ordinal, answer: string)
    requires answer in Choices(f)
    ensures Decode(f, Encode(f, answer)) == Some(answer)
  {
    var i :| 0 <= i < |Choices(f)| && Choices(f)[i] == answer;
    EncodeOffered(f, i);
  }

  /** Every code in the field's range decodes to an offered answer that
      encodes back to that code. */
  lemma EncodeDecode(f: Ordinal, code: int)
    requires FirstCode(f) <= code <= TopCode(f)
    ensures Decode(f, code).Some? && Encode(f, Decode(f, code).value) == code
  {
    EncodeOffered(f, code - FirstCode(f));
  }

  /** No two offered labels share a code. */
  lemma EncodeInjective(f: Ordinal, a: string, b: string)
    requires a in Choices(f) && b in Choices(f)
    requires Encode(f, a) == Encode(f, b)
    ensures a == b
  {
    DecodeEncode(f, a);
    DecodeEncode(f, b);
  }
}
