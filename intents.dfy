/** The closed set of behavioural intents a survey question can measure (`INTENTS`, `INTENT_SET`). */
module Intents {
  import opened Wrappers

  datatype Intent =
    | OverallSatisfaction
    | EaseOfUse
    | ConfusionLevel
    | FrustrationLevel
    | TrustConfidence
    | LikelihoodToContinue
    | OpenFeedback

  /** The wire name of an intent, as it appears in configs and in intent-score objects. */
  function Name(i: Intent): string {
    match i
    case OverallSatisfaction => "OVERALL_SATISFACTION"
    case EaseOfUse => "EASE_OF_USE"
    case ConfusionLevel => "CONFUSION_LEVEL"
    case FrustrationLevel => "FRUSTRATION_LEVEL"
    case TrustConfidence => "TRUST_CONFIDENCE"
    case LikelihoodToContinue => "LIKELIHOOD_TO_CONTINUE"
    case OpenFeedback => "OPEN_FEEDBACK"
  }

  /** `INTENTS`, in the source's order; `INTENT_SET.has(s)` is `s in IntentNames`. */
  const IntentNames: seq<string> := [
    "OVERALL_SATISFACTION",
    "EASE_OF_USE",
    "CONFUSION_LEVEL",
    "FRUSTRATION_LEVEL",
    "TRUST_CONFIDENCE",
    "LIKELIHOOD_TO_CONTINUE",
    "OPEN_FEEDBACK"
  ]

  /** `INTENT_SET.has(s)`. Written as a walk over `IntentNames` so that the solver only
      looks at the names when a proof asks for them; `IsIntentNameMeaning` states what it means. */
  predicate IsIntentName(s: string)
  {
    Listed(s, IntentNames)
  }

  predicate Listed(s: string, names: seq<string>)
  {
    names != [] && (s == names[0] || Listed(s, names[1..]))
  }

  lemma {:induction false} ListedMeaning(s: string, names: seq<string>)
    ensures Listed(s, names) <==> s in names
  {
    if names != [] {
      ListedMeaning(s, names[1..]);
      assert names == [names[0]] + names[1..];
    }
  }

  lemma IsIntentNameMeaning(s: string)
    ensures IsIntentName(s) <==> s in IntentNames
  {
    ListedMeaning(s, IntentNames);
  }

  /** Reads a wire name back into the enumeration; exact match only. */
  function Parse(s: string): (r: Option<Intent>)
    ensures r.Some? <==> s in IntentNames
    ensures r.Some? ==> Name(r.value) == s
  {
    if s == "OVERALL_SATISFACTION" then Some(OverallSatisfaction)
    else if s == "EASE_OF_USE" then Some(EaseOfUse)
    else if s == "CONFUSION_LEVEL" then Some(ConfusionLevel)
    else if s == "FRUSTRATION_LEVEL" then Some(FrustrationLevel)
    else if s == "TRUST_CONFIDENCE" then Some(TrustConfidence)
    else if s == "LIKELIHOOD_TO_CONTINUE" then Some(LikelihoodToContinue)
    else if s == "OPEN_FEEDBACK" then Some(OpenFeedback)
    else None
  }

  /** Every intent's name belongs to `INTENTS` and reads back as the same intent. */
  lemma NameRoundTrip(i: Intent)
    ensures Name(i) in IntentNames && IsIntentName(Name(i))
    ensures Parse(Name(i)) == Some(i)
  {
    IsIntentNameMeaning(Name(i));
  }
}
