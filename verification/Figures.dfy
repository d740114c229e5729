/** What a confidence figure comes to, read off the policy and the inputs alone. */
module Figures {
  import opened Machine
  import opened Confidence

  // ----- what age leaves standing -----

  function Power2(k: nat): (r: nat)
    ensures r >= 1
  {
    if k == 0 then 1 else 2 * Power2(k - 1)
  }

  lemma {:induction false} HalfOf(n: nat, d: nat)
    requires d > 0
    ensures n / d / 2 == n / (2 * d)
  {
    var q := n / d;
    Quotient(n, d);
    HalfBetween(n, d, q, q / 2);
    DivBetween(n, 2 * d, q / 2, q / 2);
  }

  lemma {:induction false} HalfBetween(n: nat, d: nat, q: nat, h: nat)
    requires q * d <= n < q * d + d && 2 * h <= q <= 2 * h + 1
    ensures h * (2 * d) <= n < h * (2 * d) + 2 * d
  {
    Times(2 * h, q, d);
    Times(q, 2 * h + 1, d);
    Doubled(h, d);
  }

  lemma {:induction false} Doubled(h: nat, d: nat)
    ensures (2 * h) * d == h * (2 * d) && (2 * h + 1) * d == h * (2 * d) + d
  {
  }

  /** Each whole half-life halves what stands, rounding down. */
  lemma {:induction false} HalvedIs(k: nat)
    ensures Halved(k) == 100 / Power2(k)
  {
    if k > 0 {
      HalvedIs(k - 1);
      HalfOf(100, Power2(k - 1));
    }
  }

  lemma {:induction false} WholeAndPart(k: nat, r: nat, days: nat)
    requires r < days
    ensures Whole(k * days + r, days) == k && LeftOver(k * days + r, days) == r
  {
    var age := k * days + r;
    DivBetween(age, days, k, k);
    assert age == age / days * days + age % days;
  }

  /**
   After `k` half-lives and `r` days: a hundred over two to the `k`, less its half in proportion to `r`, rounded down,
   and never below the floor.
   */
  lemma {:induction false} StandingIs(days: u32, floor: u8, k: nat, r: nat)
    returns (lost: nat)
    requires days >= 1 && 1 <= floor <= 100 && r < days && k * days + r <= 0xFFFF_FFFF
    ensures var upper := 100 / Power2(k);
            && lost <= upper && lost * days <= (upper - upper / 2) * r < lost * days + days
            && StandingAfter(HalfLife(days, floor), k * days + r)
               == if upper - lost < floor then floor else upper - lost
    ensures r == 0 ==> lost == 0
  {
    var upper := Halved(k);
    HalvedIs(k);
    WholeAndPart(k, r, days);
    lost := Lost(upper - upper / 2, r, days);
    Quotient((upper - upper / 2) * r, days);
    if r == 0 {
      DivBetween(0, days, 0, 0);
    }
  }

  /** What never decays stands whole. */
  lemma {:induction false} NeverStandsWhole(age: u32)
    ensures StandingAfter(Never, age) == 100
  {
  }

  // ----- what the known figures weigh together -----

  /** A known figure times its weight. */
  function Term(figure: Option<nat>, weight: u32): nat {
    if figure.Some? then figure.value * weight else 0
  }

  function Heft(figure: Option<nat>, weight: u32): nat {
    if figure.Some? then weight else 0
  }

  /** A figure between 0 and 100. */
  function AtMost(figure: Option<nat>): Option<nat> {
    if figure.Some? && figure.value > 100 then Some(100) else figure
  }

  /** The ladder's rung for this many parties, the last one for any more. */
  function Rung(ladder: seq<u8>, parties: nat): nat {
    if ladder == [] then 0 else ladder[if parties < |ladder| then parties else |ladder| - 1]
  }

  function Parties(policy: Policy, inputs: Inputs): Option<nat> {
    match inputs.corroboration
    case None => None
    case Some(counted) => AtMost(Some(Rung(policy.ladder, counted.independentParties)))
  }

  function Standing(policy: Policy, inputs: Inputs): Option<nat>
    requires Sensible(policy)
  {
    match inputs.ageInDays case None => None case Some(age) => AtMost(Some(StandingAfter(policy.decay, age)))
  }

  /** The five figures, each under its own weight. */
  function Sum(policy: Policy, inputs: Inputs): nat
    requires Sensible(policy)
  {
    var w := policy.weights;
    Term(inputs.reliability, w.reliability) + Term(inputs.credibility, w.credibility)
    + Term(Parties(policy, inputs), w.corroboration) + Term(Standing(policy, inputs), w.recency)
    + Term(AtMost(inputs.stance), w.stance)
  }

  function Weight(policy: Policy, inputs: Inputs): nat
    requires Sensible(policy)
  {
    var w := policy.weights;
    Heft(inputs.reliability, w.reliability) + Heft(inputs.credibility, w.credibility)
    + Heft(Parties(policy, inputs), w.corroboration) + Heft(Standing(policy, inputs), w.recency)
    + Heft(AtMost(inputs.stance), w.stance)
  }

  lemma {:induction false} KnownAdds(components: seq<Component>, name: Name, score: Option<Score>, weight: u32)
    ensures Weighted(components + Known(name, score, weight)) == Weighted(components) + Term(score, weight)
    ensures TotalWeight(components + Known(name, score, weight)) == TotalWeight(components) + Heft(score, weight)
  {
    if score.Some? {
      assert (components + [Component(name, score.value, weight)])[..|components|] == components;
    } else {
      assert components + [] == components;
    }
  }

  lemma {:induction false} ComponentsWeigh(policy: Policy, inputs: Inputs)
    requires Sensible(policy)
    ensures Weighted(ComponentsOf(policy, inputs)) == Sum(policy, inputs)
    ensures TotalWeight(ComponentsOf(policy, inputs)) == Weight(policy, inputs)
  {
    var w := policy.weights;
    FiveWeigh(inputs.reliability, inputs.credibility, CorroborationOf(policy, inputs), RecencyOf(policy, inputs),
              StanceOf(inputs), w);
  }

  lemma {:induction false} FiveWeigh(r: Option<Score>, c: Option<Score>, p: Option<Score>, a: Option<Score>,
                                     s: Option<Score>, w: Weights)
    ensures var all := Known(SourceReliability, r, w.reliability) + Known(InformationCredibility, c, w.credibility)
                       + Known(Corroborated, p, w.corroboration) + Known(Recency, a, w.recency)
                       + Known(Stance, s, w.stance);
            && Weighted(all) == Term(r, w.reliability) + Term(c, w.credibility) + Term(p, w.corroboration)
                                + Term(a, w.recency) + Term(s, w.stance)
            && TotalWeight(all) == Heft(r, w.reliability) + Heft(c, w.credibility) + Heft(p, w.corroboration)
                                   + Heft(a, w.recency) + Heft(s, w.stance)
  {
    var one := Known(SourceReliability, r, w.reliability);
    var two := one + Known(InformationCredibility, c, w.credibility);
    var three := two + Known(Corroborated, p, w.corroboration);
    var four := three + Known(Recency, a, w.recency);
    assert [] + one == one;
    KnownAdds([], SourceReliability, r, w.reliability);
    KnownAdds(one, InformationCredibility, c, w.credibility);
    KnownAdds(two, Corroborated, p, w.corroboration);
    KnownAdds(three, Recency, a, w.recency);
    KnownAdds(four, Stance, s, w.stance);
  }

  /**
   A current, undisputed claim reads the weighted mean of the figures that are known, rounded down, and nothing when
   none of them carries weight. Absent figures count neither above nor below the line.
   */
  lemma {:induction false} PlainFigureIs(policy: Policy, inputs: Inputs)
    requires Sensible(policy) && !inputs.contradicted && inputs.status.Active?
    ensures var figure, sum, weight := DerivedFrom(policy, inputs), Sum(policy, inputs), Weight(policy, inputs);
            if weight == 0 then figure == Breakdown(0, Unknown, None, None, None, None)
            else figure.how.Derived? && figure.overall * weight <= sum < figure.overall * weight + weight
  {
    ComponentsWeigh(policy, inputs);
    MeanIsAScore(ComponentsOf(policy, inputs));
    if Weight(policy, inputs) > 0 {
      Quotient(Sum(policy, inputs), Weight(policy, inputs));
    }
  }

  function Less(figure: nat, penalty: nat): nat {
    if penalty > figure then 0 else figure - penalty
  }

  /**
   What penalties take off, in points: a contradiction its own, a withdrawn, replaced or expired claim its own, and
   both together no more than 255; never below nothing. Only the figure changes, and nothing is taken off a claim
   of which nothing is known.
   */
  lemma {:induction false} PenaltiesAreDeducted(policy: Policy, inputs: Inputs)
    requires Sensible(policy)
    ensures var plain := DerivedFrom(policy, inputs.(contradicted := false, status := Active));
            var figure, m := DerivedFrom(policy, inputs), plain.overall;
            var c, w := policy.contradictionPenalty, policy.withdrawnPenalty;
            && figure == plain.(overall := figure.overall)
            && (plain.how.Unknown? ==> figure.overall == 0)
            && (plain.how.Derived? ==>
                  match inputs.status
                  case Active => figure.overall == if inputs.contradicted then Less(m, c) else m
                  case Deprecated => figure.overall == if inputs.contradicted then Less(m, c) else m
                  case Revoked => figure.overall == Less(m, if inputs.contradicted then Both(c, w) else w)
                  case Superseded => figure.overall == Less(m, if inputs.contradicted then Both(c, w) else w)
                  case Expired => figure.overall == Less(m, if inputs.contradicted then Both(c, w) else w))
  {
    var plain := inputs.(contradicted := false, status := Active);
    assert ComponentsOf(policy, plain) == ComponentsOf(policy, inputs);
    MeanIsAScore(ComponentsOf(policy, inputs));
  }

  function Both(c: nat, w: nat): nat {
    if c + w < 255 then c + w else 255
  }

  /** Beside the figure, a derived breakdown shows what each of four components scored, or that it was not known. */
  lemma {:induction false} BreakdownShows(policy: Policy, inputs: Inputs)
    requires Sensible(policy) && DerivedFrom(policy, inputs).how.Derived?
    ensures var figure := DerivedFrom(policy, inputs);
            && figure.reliability == inputs.reliability && figure.credibility == inputs.credibility
            && figure.corroboration == Parties(policy, inputs) && figure.recency == Standing(policy, inputs)
  {
  }

  /** The components reported are the known figures, each under its own name and weight, in one order. */
  lemma {:induction false} ComponentsAre(policy: Policy, inputs: Inputs, c: Component)
    requires Sensible(policy)
    ensures c in ComponentsOf(policy, inputs) <==>
              match c.name
              case SourceReliability => inputs.reliability == Some(c.score) && c.weight == policy.weights.reliability
              case InformationCredibility =>
                inputs.credibility == Some(c.score) && c.weight == policy.weights.credibility
              case Corroborated => Parties(policy, inputs) == Some(c.score) && c.weight == policy.weights.corroboration
              case Recency => Standing(policy, inputs) == Some(c.score) && c.weight == policy.weights.recency
              case Stance => AtMost(inputs.stance) == Some(c.score) && c.weight == policy.weights.stance
  {
    var w := policy.weights;
    assert Known(SourceReliability, inputs.reliability, w.reliability) == [] || inputs.reliability.Some?;
  }
}
