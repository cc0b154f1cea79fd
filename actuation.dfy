/** The dry-run actuation layer: each policy recommendation becomes a simulated action. */
module Actuation {
  import opened PyText

  const LowerCeiling: string := "SIMULATE: would decrease ENTROPY_MAX by 0.05"
  const FlagInputs: string := "SIMULATE: would flag input sources for review"
  const RelaxDampening: string := "SIMULATE: would relax dampening slope slightly"
  const NoAction: string := "NO ACTION: system stable"
  const Unknown: string := "UNKNOWN RECOMMENDATION"

  /** The phrases `simulate_action` looks for, in the order it tries them. */
  const LoweringPhrase: string := "lowering ENTROPY_MAX"
  const ReviewPhrase: string := "review input patterns"
  const OverPhrase: string := "over-constrained"
  const BoundsPhrase: string := "operating within expected bounds"

  /** The recommendations the policy report can hold. */
  const ConsiderLowering: string := "consider " + LoweringPhrase
  const FrequentlyStabilizing: string := "system frequently stabilizing; " + ReviewPhrase
  const OverConstrained: string := "dampening low; entropy may be " + OverPhrase
  const WithinBounds: string := "system " + BoundsPhrase
  const CollectMore: string := "collect more observations"

  /** `simulate_action`: the first phrase found in the recommendation decides. */
  function SimulateAction(rec: string): (action: string)
    ensures action == LowerCeiling <==> Contains(rec, LoweringPhrase)
    ensures action == FlagInputs <==> !Contains(rec, LoweringPhrase) && Contains(rec, ReviewPhrase)
    ensures action == RelaxDampening <==>
      (!Contains(rec, LoweringPhrase) && !Contains(rec, ReviewPhrase) && Contains(rec, OverPhrase))
    ensures action == NoAction <==>
      (!Contains(rec, LoweringPhrase) && !Contains(rec, ReviewPhrase) && !Contains(rec, OverPhrase)
       && Contains(rec, BoundsPhrase))
    ensures action == Unknown <==>
      (!Contains(rec, LoweringPhrase) && !Contains(rec, ReviewPhrase) && !Contains(rec, OverPhrase)
       && !Contains(rec, BoundsPhrase))
  {
    if Contains(rec, LoweringPhrase) then LowerCeiling
    else if Contains(rec, ReviewPhrase) then FlagInputs
    else if Contains(rec, OverPhrase) then RelaxDampening
    else if Contains(rec, BoundsPhrase) then NoAction
    else Unknown
  }

  /** Each threshold recommendation maps to its own simulated action. */
  lemma ConsiderLoweringActs()
    ensures SimulateAction(ConsiderLowering) == LowerCeiling
  {
    ContainsInfix("consider ", LoweringPhrase, "");
    assert ConsiderLowering == "consider " + LoweringPhrase + "";
  }

  lemma FrequentlyStabilizingActs()
    ensures SimulateAction(FrequentlyStabilizing) == FlagInputs
  {
    PhraseLetters();
    StabilizingLetters();
    MissingChar(FrequentlyStabilizing, LoweringPhrase, 9);
    ContainsInfix("system frequently stabilizing; ", ReviewPhrase, "");
    assert FrequentlyStabilizing == "system frequently stabilizing; " + ReviewPhrase + "";
  }

  lemma OverConstrainedActs()
    ensures SimulateAction(OverConstrained) == RelaxDampening
  {
    PhraseLetters();
    OverConstrainedLetters();
    MissingChar(OverConstrained, LoweringPhrase, 9);
    MissingChar(OverConstrained, ReviewPhrase, 10);
    ContainsInfix("dampening low; entropy may be ", OverPhrase, "");
    assert OverConstrained == "dampening low; entropy may be " + OverPhrase + "";
  }

  lemma WithinBoundsActs()
    ensures SimulateAction(WithinBounds) == NoAction
  {
    PhraseLetters();
    WithinBoundsLetters();
    MissingChar(WithinBounds, LoweringPhrase, 9);
    MissingChar(WithinBounds, ReviewPhrase, 2);
    MissingChar(WithinBounds, OverPhrase, 1);
    ContainsInfix("system ", BoundsPhrase, "");
    assert WithinBounds == "system " + BoundsPhrase + "";
  }

  /** The no-data recommendation has no simulated action. */
  lemma NoDataIsUnknown()
    ensures SimulateAction(CollectMore) == Unknown
  {
    PhraseLetters();
    CollectMoreLetters();
    MissingChar(CollectMore, LoweringPhrase, 9);
    MissingChar(CollectMore, ReviewPhrase, 5);
    MissingChar(CollectMore, OverPhrase, 4);
    MissingChar(CollectMore, BoundsPhrase, 10);
  }

  // Characters that tell the phrases apart: for each phrase a recommendation
  // lacks, a character of the phrase that the recommendation does not contain.

  lemma PhraseLetters()
    ensures LoweringPhrase[9] == 'E' && ReviewPhrase[10] == 'u' && ReviewPhrase[2] == 'v' && ReviewPhrase[5] == 'w'
    ensures OverPhrase[1] == 'v' && OverPhrase[4] == '-' && BoundsPhrase[10] == 'w'
  {
  }

  lemma StabilizingLetters()
    ensures 'E' !in FrequentlyStabilizing
  {
    assert 'E' !in "system frequently stabilizing; ";
    assert 'E' !in ReviewPhrase;
  }

  lemma OverConstrainedLetters()
    ensures 'E' !in OverConstrained && 'u' !in OverConstrained
  {
    assert 'E' !in "dampening low; entropy may be " && 'u' !in "dampening low; entropy may be ";
    assert 'E' !in OverPhrase && 'u' !in OverPhrase;
  }

  lemma WithinBoundsLetters()
    ensures 'E' !in WithinBounds && 'v' !in WithinBounds
  {
    BoundsPhraseLetters();
    assert 'E' !in "system " && 'v' !in "system ";
  }

  lemma BoundsPhraseLetters()
    ensures 'E' !in BoundsPhrase && 'v' !in BoundsPhrase
  {
  }

  lemma CollectMoreLetters()
    ensures 'E' !in CollectMore && 'w' !in CollectMore && '-' !in CollectMore
  {
    assert 'E' !in CollectMore;
    assert 'w' !in CollectMore;
  }
}
