/** The strategy resolver: a strategy name to the weights of the four sub-scores. */
module Strategies {

  datatype Weights = Weights(urgency: real, importance: real, effort: real, dependencies: real)

  const SmartBalance: Weights := Weights(0.35, 0.30, 0.15, 0.20)
  const FastestWins: Weights := Weights(0.20, 0.20, 0.50, 0.10)
  const HighImpact: Weights := Weights(0.15, 0.60, 0.10, 0.15)
  const DeadlineDriven: Weights := Weights(0.60, 0.20, 0.05, 0.15)

  /** The four strategy names the resolver knows. */
  predicate KnownStrategy(name: string) {
    name == "smart_balance" || name == "fastest_wins" || name == "high_impact" || name == "deadline_driven"
  }

  /** A convex weight vector: every weight non-negative, and they sum to exactly 1. */
  predicate WeightsValid(w: Weights) {
    && w.urgency >= 0.0 && w.importance >= 0.0 && w.effort >= 0.0 && w.dependencies >= 0.0
    && w.urgency + w.importance + w.effort + w.dependencies == 1.0
  }

  /**
   * `strategies.get(name, strategies['smart_balance'])`: the table lookup with its fallback.
   * Sums are exact here because weights are reals, not binary floating point.
   */
  function GetWeights(name: string): (w: Weights)
    ensures WeightsValid(w)
    ensures !KnownStrategy(name) ==> w == SmartBalance
    ensures w == SmartBalance || w == FastestWins || w == HighImpact || w == DeadlineDriven
  {
    if name == "fastest_wins" then FastestWins
    else if name == "high_impact" then HighImpact
    else if name == "deadline_driven" then DeadlineDriven
    else SmartBalance
  }

  /** The fastest-wins strategy puts strictly more weight on effort than the default strategy. */
  lemma FastestWinsFavoursEffort()
    ensures GetWeights("fastest_wins").effort > GetWeights("smart_balance").effort
  {
  }
}
