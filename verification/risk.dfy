/** The risk classifier: a probability mapped to one of four ordered tiers. */
module Risk {

  datatype Tier = Low | Medium | High | VeryHigh {

    /** The label shown to the user. */
    function Label(): string
    {
      match this
      case Low => "Low"
      case Medium => "Medium"
      case High => "High"
      case VeryHigh => "Very High"
    }

    /** 0 for the safest tier up to 3 for the riskiest. */
    function Severity(): nat
    {
      match this
      case Low => 0
      case Medium => 1
      case High => 2
      case VeryHigh => 3
    }

    /** The least probability a tier admits (inclusive); the riskiest tier has none. */
    function Floor(): real
      requires !VeryHigh?
    {
      match this
      case Low => 80.0
      case Medium => 60.0
      case High => 40.0
    }

    /** The next safer tier. */
    function Safer(): Tier
      requires !Low?
    {
      match this
      case Medium => Low
      case High => Medium
      case VeryHigh => High
    }
  }

  /** The tier of a probability: the safest tier whose floor the probability
      reaches; every bound routes to the safer tier. */
  function RiskTier(prob: real): (t: Tier)
    ensures !t.VeryHigh? ==> prob >= t.Floor()
    ensures !t.Low? ==> prob < t.Safer().Floor()
  {
    if prob >= 80.0 then Low
    else if prob >= 60.0 then Medium
    else if prob >= 40.0 then High
    else VeryHigh
  }

  /** A higher probability never lands in a riskier tier. */
  lemma RiskTierMonotone(p: real, q: real)
    requires p <= q
    ensures RiskTier(q).Severity() <= RiskTier(p).Severity()
  {
  }

  /** The printed tier names the probability band: "Low" from 80, "Medium"
      from 60, "High" from 40 and "Very High" below that. */
  lemma RiskTierLabels(prob: real)
    ensures RiskTier(prob).Label() == "Low" <==> prob >= 80.0
    ensures RiskTier(prob).Label() == "Medium" <==> 60.0 <= prob < 80.0
    ensures RiskTier(prob).Label() == "High" <==> 40.0 <= prob < 60.0
    ensures RiskTier(prob).Label() == "Very High" <==> prob < 40.0
  {
  }

  lemma RiskTierBoundaries()
    ensures RiskTier(80.0) == Low && RiskTier(79.999) == Medium
    ensures RiskTier(60.0) == Medium && RiskTier(59.999) == High
    ensures RiskTier(40.0) == High && RiskTier(39.999) == VeryHigh
  {
  }
}
