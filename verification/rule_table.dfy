/**
 * A declarative rule table evaluated first-match-wins, and the proof that the
 * classifier's if / else-if chain is exactly this table's evaluation.
 */
module RuleTable {
  import opened Wrappers
  import opened Features
  import opened Emotion

  datatype Comparison = Above | Below

  /** Fires when the named feature is strictly on the `cmp` side of `threshold`. */
  datatype Rule = Rule(feature: FeatureName, cmp: Comparison, threshold: real, verdict: Label)

  predicate Fires(rule: Rule, f: Features)
  {
    match rule.cmp
    case Above => Value(f, rule.feature) > rule.threshold
    case Below => Value(f, rule.feature) < rule.threshold
  }

  /** The position of the earliest rule that fires, if any. */
  function FirstMatch(rules: seq<Rule>, f: Features): (r: Option<nat>)
    ensures r.Some? ==> r.value < |rules| && Fires(rules[r.value], f)
    ensures r.Some? ==> forall j :: 0 <= j < r.value ==> !Fires(rules[j], f)
    ensures r.None? <==> forall j :: 0 <= j < |rules| ==> !Fires(rules[j], f)
  {
    if |rules| == 0 then None
    else if Fires(rules[0], f) then Some(0)
    else match FirstMatch(rules[1..], f)
      case None => None
      case Some(k) => Some(k + 1)
  }

  /** The label of the earliest firing rule, Neutral when none fires. */
  function Evaluate(rules: seq<Rule>, f: Features): Label
  {
    match FirstMatch(rules, f)
    case None => Neutral
    case Some(k) => rules[k].verdict
  }

  /** First match wins: a firing rule with no firing rule before it decides the label. */
  lemma EarliestFiringRuleDecides(rules: seq<Rule>, f: Features, i: nat)
    requires i < |rules| && Fires(rules[i], f)
    requires forall j :: 0 <= j < i ==> !Fires(rules[j], f)
    ensures Evaluate(rules, f) == rules[i].verdict
  {
  }

  /** With no rule labelled Neutral, the result is Neutral exactly when no rule fires. */
  lemma NeutralIsTheDefault(rules: seq<Rule>, f: Features)
    requires forall j :: 0 <= j < |rules| ==> rules[j].verdict != Neutral
    ensures Evaluate(rules, f) == Neutral <==> forall j :: 0 <= j < |rules| ==> !Fires(rules[j], f)
  {
  }

  /** The classifier's rules, top to bottom. */
  const EmotionTable: seq<Rule> := [
    Rule(Smile, Above, HappySmile, Happy),
    Rule(BrowRaise, Above, SurprisedBrow, Surprised),
    Rule(MouthOpen, Above, ShockedMouth, Shocked),
    Rule(BrowRaise, Below, AngryBrow, Angry)
  ]

  /** The if / else-if chain and the table agree on every feature vector. */
  lemma ClassifyIsFirstMatch(f: Features)
    ensures Classify(f) == Evaluate(EmotionTable, f)
  {
    var t := EmotionTable;
    if f.smile > HappySmile {
      EarliestFiringRuleDecides(t, f, 0);
    } else if f.browRaise > SurprisedBrow {
      EarliestFiringRuleDecides(t, f, 1);
    } else if f.mouthOpen > ShockedMouth {
      EarliestFiringRuleDecides(t, f, 2);
    } else if f.browRaise < AngryBrow {
      EarliestFiringRuleDecides(t, f, 3);
    } else {
      NeutralIsTheDefault(t, f);
    }
  }
}
