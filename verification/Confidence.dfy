/** Composing a confidence figure: a floor-divided weighted mean of the known components, less penalties. */
module Confidence {
  import opened Machine
  import Dedup

  type u8 = n: nat | n <= 255
  type u32 = n: nat | n <= 0xFFFF_FFFF
  type Score = n: nat | n <= 100

  datatype Name = SourceReliability | InformationCredibility | Corroborated | Recency | Stance

  datatype Component = Component(name: Name, score: Score, weight: u32)

  datatype Weights = Weights(reliability: u32, credibility: u32, corroboration: u32, recency: u32, stance: u32)

  datatype Policy = Policy(
    weights: Weights, ladder: seq<u8>, decay: Profile, contradictionPenalty: u8, withdrawnPenalty: u8)

  datatype Counted = Counted(independentParties: nat, discountedObservations: nat)

  datatype Lifecycle = Active | Revoked | Superseded | Expired | Deprecated

  /** `stance` is the score the policy gives the claim's stance, if it gives one. */
  datatype Inputs = Inputs(
    reliability: Option<Score>, credibility: Option<Score>, corroboration: Option<Counted>,
    ageInDays: Option<u32>, stance: Option<u8>, status: Lifecycle, contradicted: bool, analystOverride: Option<Score>)

  datatype Method = Derived | OperatorAsserted | Unknown

  datatype Breakdown = Breakdown(
    overall: Score, how: Method, reliability: Option<Score>, credibility: Option<Score>,
    corroboration: Option<Score>, recency: Option<Score>)

  datatype Assessment = Assessment(
    components: seq<Component>, penalties: seq<u8>, derived: Breakdown, breakdown: Breakdown)

  function SatAdd8(a: nat, b: nat): u8 {
    if a + b > 255 then 255 else a + b
  }

  function ScoreOf(value: u8): Score {
    if value > 100 then 100 else value
  }

  // ----- decay: how a record's standing falls with age -----

  datatype Profile = HalfLife(days: u32, floor: u8) | Never

  /** 100, halved and rounded down `k` times. */
  function Halved(k: nat): (r: nat)
    ensures r <= 100
  {
    if k == 0 then 100 else Halved(k - 1) / 2
  }

  /** How much of a span is lost part-way through it. */
  function Lost(span: nat, remainder: nat, days: nat): (r: nat)
    requires days >= 1 && remainder < days
    ensures r <= span
  {
    WithinBand(span, remainder, days);
    span * remainder / days
  }

  /** Part-way from a figure to its half. */
  function Between(upper: nat, remainder: nat, days: nat): (r: nat)
    requires days >= 1 && remainder < days
    ensures r <= upper
  {
    upper - Lost(upper - upper / 2, remainder, days)
  }

  /** The whole half-lives in an age, and what is left over. */
  function Whole(age: nat, days: nat): (r: nat)
    requires days >= 1
  {
    age / days
  }

  function LeftOver(age: nat, days: nat): (r: nat)
    requires days >= 1
    ensures r < days
  {
    age % days
  }

  /** Halved at each whole half-life, on a straight line between, and never below the floor. */
  function StandingAfter(profile: Profile, age: u32): u8
    requires profile.HalfLife? ==> profile.days >= 1 && profile.floor <= 100
  {
    match profile
    case Never => 100
    case HalfLife(days, floor) =>
      var value := Between(Halved(Whole(age, days)), LeftOver(age, days), days);
      if value < floor then floor else value
  }

  /** A policy whose profile is one its constructors can build. */
  predicate Sensible(policy: Policy) {
    policy.decay.HalfLife? ==> policy.decay.days >= 1 && 1 <= policy.decay.floor <= 100
  }

  lemma {:induction false} WithinBand(span: nat, remainder: nat, days: nat)
    requires days >= 1 && remainder < days
    ensures 0 <= span * remainder / days <= span
  {
    Times(remainder, days, span);
    DivBetween(span * remainder, days, 0, span);
  }

  lemma {:induction false} Times(a: nat, b: nat, w: nat)
    requires w > 0 ==> a <= b
    ensures a * w <= b * w
  {
  }

  lemma {:induction false} Smaller(a: nat, b: nat, d: nat)
    requires a * d < b * d
    ensures a < b
  {
    if a >= b {
      Times(b, a, d);
      assert false;
    }
  }

  lemma {:induction false} DivBetween(n: nat, d: nat, lo: nat, hi: nat)
    requires d > 0 && lo * d <= n < hi * d + d
    ensures lo <= n / d <= hi
  {
    var q := n / d;
    assert q * d <= n < q * d + d;
    assert (q + 1) * d == q * d + d && (hi + 1) * d == hi * d + d;
    Smaller(q, hi + 1, d);
    Smaller(lo, q + 1, d);
  }

  lemma {:induction false} DivMonotone(a: nat, b: nat, d: nat)
    requires d > 0 && a <= b
    ensures a / d <= b / d
  {
    assert (a / d) * d <= a && b < (b / d) * d + d;
    assert (b / d + 1) * d == (b / d) * d + d;
    Smaller(a / d, b / d + 1, d);
  }

  lemma {:induction false} LostGrows(span: nat, a: nat, b: nat, days: nat)
    requires days >= 1 && a <= b < days
    ensures Lost(span, a, days) <= Lost(span, b, days)
  {
    assert span * a <= span * b;
    DivMonotone(span * a, span * b, days);
  }

  lemma {:induction false} HalvedFalls(j: nat, k: nat)
    requires j <= k
    ensures Halved(k) <= Halved(j)
  {
    if j < k {
      HalvedFalls(j, k - 1);
    }
  }

  /** An older record never stands higher, and no record falls below its floor or out of range. */
  lemma {:induction false} OlderStandsNoHigher(profile: Profile, young: u32, older: u32)
    requires profile.HalfLife? ==> profile.days >= 1 && 1 <= profile.floor <= 100
    requires young <= older
    ensures StandingAfter(profile, older) <= StandingAfter(profile, young) <= 100
    ensures profile.HalfLife? ==> StandingAfter(profile, older) >= profile.floor >= 1
  {
    if profile.HalfLife? {
      var d := profile.days;
      var j, k := young / d, older / d;
      DivMonotone(young, older, d);
      var uj, uk := Halved(j), Halved(k);
      if j == k {
        assert young % d <= older % d;
        LostGrows(uj - uj / 2, young % d, older % d, d);
      } else {
        HalvedFalls(j + 1, k);
        assert Halved(j + 1) == uj / 2;
      }
    }
  }

  // ----- the weighted mean -----

  /** A component's score times its weight. */
  function Share(c: Component): (r: nat)
    ensures r <= 100 * c.weight
  {
    Times(c.score, 100, c.weight);
    c.score * c.weight
  }

  function Weighted(components: seq<Component>): nat {
    if components == [] then 0
    else
      var n := |components| - 1;
      Weighted(components[..n]) + Share(components[n])
  }

  function TotalWeight(components: seq<Component>): nat {
    if components == [] then 0
    else TotalWeight(components[..|components| - 1]) + components[|components| - 1].weight
  }

  /** The exact weighted mean, rounded down, when anything carries weight. */
  function Mean(components: seq<Component>): Option<nat> {
    if TotalWeight(components) == 0 then None else Some(Weighted(components) / TotalWeight(components))
  }

  /** The longest list whose sums cannot pass `U64_MAX`, whatever the scores and weights. */
  const NEVER_SATURATES: nat := 42_949_672

  lemma {:induction false} SumsAreBounded(components: seq<Component>)
    ensures Weighted(components) <= 100 * TotalWeight(components)
    ensures TotalWeight(components) <= |components| * 0xFFFF_FFFF
  {
    if components != [] {
      var n := |components| - 1;
      SumsAreBounded(components[..n]);
    }
  }

  /** One more component, and how far the sums can have come. */
  lemma {:induction false} OneMoreComponent(components: seq<Component>, i: nat)
    requires i < |components|
    ensures Weighted(components[..i + 1]) == Weighted(components[..i]) + Share(components[i])
    ensures TotalWeight(components[..i + 1]) == TotalWeight(components[..i]) + components[i].weight
    ensures |components| <= NEVER_SATURATES ==>
              Weighted(components[..i + 1]) <= U64_MAX && TotalWeight(components[..i + 1]) <= U64_MAX
  {
    assert components[..i + 1][..i] == components[..i];
    SumsAreBounded(components[..i + 1]);
    Times(i + 1, |components|, 0xFFFF_FFFF);
  }

  lemma {:induction false} MeanIsAScore(components: seq<Component>)
    ensures TotalWeight(components) > 0 ==> Weighted(components) / TotalWeight(components) <= 100
  {
    SumsAreBounded(components);
    if TotalWeight(components) > 0 {
      DivBetween(Weighted(components), TotalWeight(components), 0, 100);
    }
  }

  /** The sums after some components, while they cannot saturate; and whether anything has weighed yet. */
  ghost predicate Summed(components: seq<Component>, i: nat, weighted: u64, total: u64)
    requires i <= |components|
  {
    && (|components| <= NEVER_SATURATES ==>
          weighted == Weighted(components[..i]) && total == TotalWeight(components[..i]))
    && (total == 0 <==> forall j :: 0 <= j < i ==> components[j].weight == 0)
  }

  lemma {:induction false} SumsOneMore(components: seq<Component>, i: nat, weighted: u64, total: u64)
    requires i < |components| && Summed(components, i, weighted, total)
    ensures Summed(components, i + 1, SatAdd(weighted, Clamp(Share(components[i]))),
              SatAdd(total, components[i].weight))
  {
    OneMoreComponent(components, i);
  }

  /** The two sums divided, rounded down and clamped. */
  function Divided(weighted: nat, total: nat): (r: Option<Score>)
    ensures r.None? <==> total == 0
  {
    if total == 0 then None else Some(AtMost100(weighted / total))
  }

  function AtMost100(mean: nat): Score {
    if mean > 100 then 100 else mean
  }

  lemma {:induction false} DividedIsMean(components: seq<Component>)
    ensures Divided(Weighted(components), TotalWeight(components)) == Mean(components)
  {
    MeanIsAScore(components);
  }

  /** The loop, in saturating 64-bit arithmetic. */
  method WeightedMean(components: seq<Component>) returns (r: Option<Score>)
    ensures |components| <= NEVER_SATURATES ==> r == Mean(components)
    ensures r.None? <==> forall c :: c in components ==> c.weight == 0
  {
    var weighted: u64, total: u64 := 0, 0;
    for i := 0 to |components|
      invariant Summed(components, i, weighted, total)
    {
      var c := components[i];
      SumsOneMore(components, i, weighted, total);
      weighted := SatAdd(weighted, Clamp(Share(c)));
      total := SatAdd(total, c.weight);
    }
    assert components[..|components|] == components;
    DividedIsMean(components);
    return Divided(weighted, total);
  }

  lemma {:induction false} SumsAtLeast(components: seq<Component>, lo: nat)
    requires forall i :: 0 <= i < |components| && components[i].weight > 0 ==> lo <= components[i].score
    ensures lo * TotalWeight(components) <= Weighted(components)
  {
    if components != [] {
      var n := |components| - 1;
      SumsAtLeast(components[..n], lo);
      var c := components[n];
      StaysAbove(Weighted(components[..n]), TotalWeight(components[..n]), c.score, c.weight, lo);
    }
  }

  lemma {:induction false} SumsAtMost(components: seq<Component>, hi: nat)
    requires forall i :: 0 <= i < |components| && components[i].weight > 0 ==> components[i].score <= hi
    ensures Weighted(components) <= hi * TotalWeight(components)
  {
    if components != [] {
      var n := |components| - 1;
      SumsAtMost(components[..n], hi);
      var c := components[n];
      StaysWithin(Weighted(components[..n]), TotalWeight(components[..n]), c.score, c.weight, hi);
    }
  }

  /** The mean lies between the least and greatest scores that carry weight. */
  lemma {:induction false} MeanBetween(components: seq<Component>, lo: nat, hi: nat)
    requires forall i :: 0 <= i < |components| && components[i].weight > 0 ==> lo <= components[i].score <= hi
    ensures Mean(components).Some? ==> lo <= Mean(components).value <= hi
  {
    SumsAtLeast(components, lo);
    SumsAtMost(components, hi);
    if TotalWeight(components) > 0 {
      DivBetween(Weighted(components), TotalWeight(components), lo, hi);
    }
  }

  /** The same components with the same weights and no score lower. */
  ghost predicate NoLower(a: seq<Component>, b: seq<Component>) {
    |a| == |b| && forall i :: 0 <= i < |a| ==> a[i].weight == b[i].weight && a[i].score <= b[i].score
  }

  lemma {:induction false} SumsMonotone(a: seq<Component>, b: seq<Component>)
    requires NoLower(a, b)
    ensures TotalWeight(a) == TotalWeight(b) && Weighted(a) <= Weighted(b)
  {
    if a != [] {
      var n := |a| - 1;
      SumsMonotone(a[..n], b[..n]);
      Times(a[n].score, b[n].score, a[n].weight);
    }
  }

  /** Raising scores never lowers the mean. */
  lemma {:induction false} MeanMonotone(a: seq<Component>, b: seq<Component>)
    requires NoLower(a, b)
    ensures Mean(a).Some? <==> Mean(b).Some?
    ensures Mean(a).Some? ==> Mean(a).value <= Mean(b).value
  {
    SumsMonotone(a, b);
    if TotalWeight(a) > 0 {
      DivMonotone(Weighted(a), Weighted(b), TotalWeight(a));
    }
  }

  /** One more component moves the mean to somewhere between where it was and that component's score. */
  lemma {:induction false} AddingMovesTowards(components: seq<Component>, c: Component)
    requires Mean(components).Some?
    ensures var before, after := Mean(components).value, Mean(components + [c]).value;
            && Mean(components + [c]).Some?
            && (c.score >= before ==> before <= after <= c.score)
            && (c.score <= before ==> c.score <= after <= before)
  {
    assert (components + [c])[..|components|] == components;
    var m := Mean(components).value;
    var lo, hi := if c.score < m then c.score else m, if c.score < m then m else c.score;
    Quotient(Weighted(components), TotalWeight(components));
    StaysBetween(Weighted(components), TotalWeight(components), c.score, c.weight, m, lo, hi);
  }

  lemma {:induction false} StaysAbove(w: nat, t: nat, s: nat, d: nat, lo: nat)
    requires lo * t <= w && (d > 0 ==> lo <= s)
    ensures lo * (t + d) <= w + s * d
  {
    Times(lo, s, d);
    assert lo * (t + d) == lo * t + lo * d;
  }

  lemma {:induction false} StaysWithin(w: nat, t: nat, s: nat, d: nat, hi: nat)
    requires w <= hi * t && (d > 0 ==> s <= hi)
    ensures w + s * d <= hi * (t + d)
  {
    Times(s, hi, d);
    assert hi * (t + d) == hi * t + hi * d;
  }

  lemma {:induction false} StaysBelow(w: nat, t: nat, s: nat, d: nat, hi: nat)
    requires w < hi * t + t && s <= hi
    ensures w + s * d < hi * (t + d) + (t + d)
  {
    Times(s, hi, d);
    assert hi * (t + d) == hi * t + hi * d;
  }

  lemma {:induction false} StaysBetween(w: nat, t: nat, s: nat, d: nat, m: nat, lo: nat, hi: nat)
    requires t > 0 && m * t <= w < m * t + t && lo <= m <= hi && lo <= s <= hi
    ensures lo <= (w + s * d) / (t + d) <= hi
  {
    Times(lo, m, t);
    Times(m, hi, t);
    StaysAbove(w, t, s, d, lo);
    StaysBelow(w, t, s, d, hi);
    DivBetween(w + s * d, t + d, lo, hi);
  }

  lemma {:induction false} Quotient(w: nat, t: nat)
    requires t > 0
    ensures (w / t) * t <= w < (w / t) * t + t
  {
  }

  // ----- the assessment -----

  /** The ladder's rung for a count; counts past the end take the last rung. */
  function CorroborationScore(ladder: seq<u8>, parties: nat): u8 {
    if ladder == [] then 0
    else if parties >= |ladder| then ladder[|ladder| - 1]
    else ladder[parties]
  }

  function Known(name: Name, score: Option<Score>, weight: u32): seq<Component> {
    if score.Some? then [Component(name, score.value, weight)] else []
  }

  function CorroborationOf(policy: Policy, inputs: Inputs): Option<Score> {
    if inputs.corroboration.Some?
    then Some(ScoreOf(CorroborationScore(policy.ladder, inputs.corroboration.value.independentParties))) else None
  }

  function RecencyOf(policy: Policy, inputs: Inputs): Option<Score>
    requires Sensible(policy)
  {
    if inputs.ageInDays.Some? then Some(ScoreOf(StandingAfter(policy.decay, inputs.ageInDays.value))) else None
  }

  function StanceOf(inputs: Inputs): Option<Score> {
    if inputs.stance.Some? then Some(ScoreOf(inputs.stance.value)) else None
  }

  function ComponentsOf(policy: Policy, inputs: Inputs): seq<Component>
    requires Sensible(policy)
  {
    Known(SourceReliability, inputs.reliability, policy.weights.reliability)
    + Known(InformationCredibility, inputs.credibility, policy.weights.credibility)
    + Known(Corroborated, CorroborationOf(policy, inputs), policy.weights.corroboration)
    + Known(Recency, RecencyOf(policy, inputs), policy.weights.recency)
    + Known(Stance, StanceOf(inputs), policy.weights.stance)
  }

  predicate Withdrawn(status: Lifecycle) {
    status.Revoked? || status.Superseded? || status.Expired?
  }

  function Deduction(policy: Policy, inputs: Inputs): u8 {
    SatAdd8(if inputs.contradicted then policy.contradictionPenalty else 0,
            if Withdrawn(inputs.status) then policy.withdrawnPenalty else 0)
  }

  /** What the sources support. */
  function DerivedFrom(policy: Policy, inputs: Inputs): Breakdown
    requires Sensible(policy)
  {
    match Mean(ComponentsOf(policy, inputs))
    case None => Breakdown(0, Unknown, None, None, None, None)
    case Some(mean) =>
      var left := if Deduction(policy, inputs) > mean then 0 else mean - Deduction(policy, inputs);
      Breakdown(if left > 100 then 100 else left, Derived, inputs.reliability, inputs.credibility,
                CorroborationOf(policy, inputs), RecencyOf(policy, inputs))
  }

  function ScoreNamed(components: seq<Component>, name: Name): Option<Score> {
    if components == [] then None
    else if components[0].name == name then Some(components[0].score)
    else ScoreNamed(components[1..], name)
  }

  /** The known components, pushed in a fixed order. */
  method Gather(policy: Policy, inputs: Inputs) returns (components: seq<Component>)
    requires Sensible(policy)
    ensures components == ComponentsOf(policy, inputs)
  {
    ghost var a := Known(SourceReliability, inputs.reliability, policy.weights.reliability);
    ghost var b := Known(InformationCredibility, inputs.credibility, policy.weights.credibility);
    ghost var c := Known(Corroborated, CorroborationOf(policy, inputs), policy.weights.corroboration);
    ghost var d := Known(Recency, RecencyOf(policy, inputs), policy.weights.recency);
    components := [];
    if inputs.reliability.Some? {
      components := components + [Component(SourceReliability, inputs.reliability.value, policy.weights.reliability)];
    }
    assert components == a;
    if inputs.credibility.Some? {
      var credibility := inputs.credibility.value;
      components := components + [Component(InformationCredibility, credibility, policy.weights.credibility)];
    }
    assert components == a + b;
    if inputs.corroboration.Some? {
      var score := CorroborationScore(policy.ladder, inputs.corroboration.value.independentParties);
      components := components + [Component(Corroborated, ScoreOf(score), policy.weights.corroboration)];
    }
    assert components == a + b + c;
    if inputs.ageInDays.Some? {
      var score := StandingAfter(policy.decay, inputs.ageInDays.value);
      components := components + [Component(Recency, ScoreOf(score), policy.weights.recency)];
    }
    assert components == a + b + c + d;
    if inputs.stance.Some? {
      components := components + [Component(Stance, ScoreOf(inputs.stance.value), policy.weights.stance)];
    }
  }

  /** The penalties that apply, and their saturating sum. */
  method Penalise(policy: Policy, inputs: Inputs) returns (penalties: seq<u8>, deduction: u8)
    ensures deduction == Deduction(policy, inputs)
    ensures penalties == (if inputs.contradicted then [policy.contradictionPenalty] else [])
                         + (if Withdrawn(inputs.status) then [policy.withdrawnPenalty] else [])
  {
    penalties := [];
    if inputs.contradicted {
      penalties := penalties + [policy.contradictionPenalty];
    }
    if Withdrawn(inputs.status) {
      penalties := penalties + [policy.withdrawnPenalty];
    }
    deduction := 0;
    for i := 0 to |penalties|
      invariant deduction == if i == 0 then 0 else if i == 1 then penalties[0] else SatAdd8(penalties[0], penalties[1])
    {
      deduction := SatAdd8(deduction, penalties[i]);
    }
  }

  method Assess(policy: Policy, inputs: Inputs) returns (r: Assessment)
    requires Sensible(policy)
    ensures r.components == ComponentsOf(policy, inputs)
    ensures r.penalties == (if inputs.contradicted then [policy.contradictionPenalty] else [])
                           + (if inputs.status.Revoked? || inputs.status.Superseded? || inputs.status.Expired?
                              then [policy.withdrawnPenalty] else [])
    ensures r.derived == DerivedFrom(policy, inputs)
    ensures r.breakdown == match inputs.analystOverride
                           case None => r.derived
                           case Some(score) => r.derived.(overall := score, how := OperatorAsserted)
  {
    var components := Gather(policy, inputs);
    NamesAreFound(policy, inputs);
    var base := WeightedMean(components);
    var penalties, deduction := Penalise(policy, inputs);
    var derived := if base.Some? then
        Breakdown(ScoreOf(if deduction > base.value then 0 else base.value - deduction), Derived,
                  inputs.reliability, inputs.credibility,
                  ScoreNamed(components, Corroborated), ScoreNamed(components, Recency))
      else Breakdown(0, Unknown, None, None, None, None);
    var breakdown := if inputs.analystOverride.Some?
      then derived.(overall := inputs.analystOverride.value, how := OperatorAsserted) else derived;
    return Assessment(components, penalties, derived, breakdown);
  }

  lemma {:induction false} NamesAreFound(policy: Policy, inputs: Inputs)
    requires Sensible(policy)
    ensures var components := ComponentsOf(policy, inputs);
            && |components| <= 5
            && ScoreNamed(components, Corroborated) == CorroborationOf(policy, inputs)
            && ScoreNamed(components, Recency) == RecencyOf(policy, inputs)
  {
    var a := Known(SourceReliability, inputs.reliability, policy.weights.reliability);
    var b := Known(InformationCredibility, inputs.credibility, policy.weights.credibility);
    var c := Known(Corroborated, CorroborationOf(policy, inputs), policy.weights.corroboration);
    var d := Known(Recency, RecencyOf(policy, inputs), policy.weights.recency);
    var e := Known(Stance, StanceOf(inputs), policy.weights.stance);
    assert ComponentsOf(policy, inputs) == a + (b + (c + (d + e)));
    SkipsOthers(a, b + (c + (d + e)), Corroborated);
    SkipsOthers(b, c + (d + e), Corroborated);
    SkipsOthers(c, d + e, Corroborated);
    SkipsOthers(d, e, Corroborated);
    SkipsOthers(a, b + (c + (d + e)), Recency);
    SkipsOthers(b, c + (d + e), Recency);
    SkipsOthers(c, d + e, Recency);
    SkipsOthers(d, e, Recency);
  }

  lemma {:induction false} SkipsOthers(first: seq<Component>, rest: seq<Component>, name: Name)
    requires |first| <= 1
    ensures ScoreNamed(first + rest, name) == ScoreNamed(first, name).Or(ScoreNamed(rest, name))
  {
    if first == [] {
      assert first + rest == rest;
    } else {
      assert (first + rest)[1..] == rest;
    }
  }

  // ----- corroboration and the figure -----

  function Discounted(decisions: seq<Dedup.Decision>): nat {
    if decisions == [] then 0
    else
      var n := |decisions| - 1;
      Discounted(decisions[..n]) + if decisions[n].verdict.IndependentCorroboration? then 0 else 1
  }

  function FromLineage(lineage: Dedup.Lineage): Counted {
    Counted(lineage.Corroboration(), Discounted(lineage.decisions))
  }

  lemma {:induction false} DiscountedAppends(decisions: seq<Dedup.Decision>, d: Dedup.Decision)
    ensures Discounted(decisions + [d]) == Discounted(decisions) + if d.verdict.IndependentCorroboration? then 0 else 1
  {
    assert (decisions + [d])[..|decisions|] == decisions;
  }

  /** One more observation counts once: as an independent party when it is novel, as discounted otherwise. */
  lemma {:induction false} OneMoreObservation(observed: seq<Dedup.Observation>, o: Dedup.Observation)
    ensures var before, after := FromLineage(Dedup.LineageOf(observed)), FromLineage(Dedup.LineageOf(observed + [o]));
            if Dedup.Novel(o, Dedup.Members(observed))
            then after == Counted(before.independentParties + 1, before.discountedObservations)
            else after == Counted(before.independentParties, before.discountedObservations + 1)
  {
    var decision := Dedup.Judge(o, observed);
    Dedup.Appends(observed, o, "");
    Dedup.VerdictMeans(o, observed);
    Dedup.LineageCounts(observed);
    Dedup.ExtendCounts(Dedup.LineageOf(observed), o, decision, Dedup.Members(observed));
    DiscountedAppends(Dedup.LineageOf(observed).decisions, decision);
  }

  /** Every observation is either an independent party or discounted. */
  lemma {:induction false} EveryObservationIsCounted(observed: seq<Dedup.Observation>)
    ensures var counted := FromLineage(Dedup.LineageOf(observed));
            counted.independentParties + counted.discountedObservations
            == |Dedup.LineageOf(observed).decisions| == |observed|
  {
    Dedup.LineageCounts(observed);
    AllCounted(observed);
  }

  /** Everything counted, one way or the other. */
  ghost function Tally(observed: seq<Dedup.Observation>): nat {
    var counted := FromLineage(Dedup.LineageOf(observed));
    counted.independentParties + counted.discountedObservations
  }

  lemma {:induction false} TalliesOneMore(observed: seq<Dedup.Observation>, o: Dedup.Observation)
    ensures Tally(observed + [o]) == Tally(observed) + 1
  {
    OneMoreObservation(observed, o);
  }

  lemma {:induction false} AllCounted(observed: seq<Dedup.Observation>)
    ensures Tally(observed) == |observed|
  {
    if observed != [] {
      var n := |observed| - 1;
      AllCounted(observed[..n]);
      TalliesOneMore(observed[..n], observed[n]);
      assert observed == observed[..n] + [observed[n]];
    }
  }

  ghost predicate Climbs(ladder: seq<u8>) {
    forall i, j :: 0 <= i <= j < |ladder| ==> ladder[i] <= ladder[j]
  }

  /** Inputs with the corroboration this lineage gives. */
  function Seen(inputs: Inputs, observed: seq<Dedup.Observation>): Inputs {
    inputs.(corroboration := Some(FromLineage(Dedup.LineageOf(observed))))
  }

  lemma {:induction false} ComponentsDiffer(policy: Policy, a: Inputs, b: Inputs)
    requires Sensible(policy)
    requires a.reliability == b.reliability && a.credibility == b.credibility && a.stance == b.stance
    requires a.corroboration.Some? <==> b.corroboration.Some?
    requires a.ageInDays.Some? <==> b.ageInDays.Some?
    requires CorroborationOf(policy, a).Some? ==> CorroborationOf(policy, a).value <= CorroborationOf(policy, b).value
    requires RecencyOf(policy, a).Some? ==> RecencyOf(policy, a).value <= RecencyOf(policy, b).value
    ensures NoLower(ComponentsOf(policy, a), ComponentsOf(policy, b))
  {
  }

  /** The figure never falls when what the components say rises. */
  lemma {:induction false} FigureMonotone(policy: Policy, a: Inputs, b: Inputs)
    requires Sensible(policy) && Deduction(policy, a) == Deduction(policy, b)
    requires NoLower(ComponentsOf(policy, a), ComponentsOf(policy, b))
    ensures DerivedFrom(policy, a).overall <= DerivedFrom(policy, b).overall
  {
    MeanMonotone(ComponentsOf(policy, a), ComponentsOf(policy, b));
  }

  /** The figure depends on a count only through its independent parties. */
  lemma {:induction false} FigureFollowsParties(policy: Policy, inputs: Inputs, x: Counted, y: Counted)
    requires Sensible(policy)
    ensures x.independentParties == y.independentParties ==>
              DerivedFrom(policy, inputs.(corroboration := Some(x)))
              == DerivedFrom(policy, inputs.(corroboration := Some(y)))
    ensures x.independentParties <= y.independentParties && Climbs(policy.ladder) ==>
              DerivedFrom(policy, inputs.(corroboration := Some(x))).overall
              <= DerivedFrom(policy, inputs.(corroboration := Some(y))).overall
  {
    var a, b := inputs.(corroboration := Some(x)), inputs.(corroboration := Some(y));
    if x.independentParties == y.independentParties {
      assert ComponentsOf(policy, a) == ComponentsOf(policy, b);
    } else if x.independentParties <= y.independentParties && Climbs(policy.ladder) {
      ComponentsDiffer(policy, a, b);
      FigureMonotone(policy, a, b);
    }
  }

  /**
   A copy, a restatement or an update leaves the derived breakdown exactly as it was; an independent
   observation, under a ladder that never goes down, never lowers the figure.
   */
  lemma {:induction false} CopiesDoNotRaiseConfidence(policy: Policy, inputs: Inputs,
                                                      observed: seq<Dedup.Observation>, o: Dedup.Observation)
    requires Sensible(policy)
    ensures !Dedup.Novel(o, Dedup.Members(observed)) ==>
              DerivedFrom(policy, Seen(inputs, observed + [o])) == DerivedFrom(policy, Seen(inputs, observed))
    ensures Climbs(policy.ladder) ==>
              DerivedFrom(policy, Seen(inputs, observed + [o])).overall
              >= DerivedFrom(policy, Seen(inputs, observed)).overall
  {
    OneMoreObservation(observed, o);
    FigureFollowsParties(policy, inputs, FromLineage(Dedup.LineageOf(observed)),
                         FromLineage(Dedup.LineageOf(observed + [o])));
  }

  /** A later look at the same evidence never reads more confident for being later. */
  lemma {:induction false} AgeNeverRaisesConfidence(policy: Policy, inputs: Inputs, young: u32, older: u32)
    requires Sensible(policy) && young <= older
    ensures DerivedFrom(policy, inputs.(ageInDays := Some(older))).overall
         <= DerivedFrom(policy, inputs.(ageInDays := Some(young))).overall
  {
    var a, b := inputs.(ageInDays := Some(older)), inputs.(ageInDays := Some(young));
    OlderStandsNoHigher(policy.decay, young, older);
    ComponentsDiffer(policy, a, b);
    FigureMonotone(policy, a, b);
  }

  /**
   The figure is asserted exactly when some known component carries weight; it is then at most the
   greatest weighted score, a penalty only ever lowers it, and an operator's figure never changes it.
   */
  lemma {:induction false} FigureMeans(policy: Policy, inputs: Inputs, hi: nat)
    requires Sensible(policy)
    ensures DerivedFrom(policy, inputs).how.Derived? <==> exists c :: c in ComponentsOf(policy, inputs) && c.weight > 0
    ensures (forall i :: 0 <= i < |ComponentsOf(policy, inputs)| && ComponentsOf(policy, inputs)[i].weight > 0 ==>
               ComponentsOf(policy, inputs)[i].score <= hi) ==> DerivedFrom(policy, inputs).overall <= hi
    ensures DerivedFrom(policy, inputs).overall
         <= DerivedFrom(policy, inputs.(contradicted := false, status := Active)).overall
    ensures forall s :: DerivedFrom(policy, inputs.(analystOverride := s)) == DerivedFrom(policy, inputs)
  {
    WeightIsSomewhere(ComponentsOf(policy, inputs));
    FigureIsBounded(policy, inputs, hi);
    PenaltiesOnlyLower(policy, inputs);
    forall s ensures DerivedFrom(policy, inputs.(analystOverride := s)) == DerivedFrom(policy, inputs) {
      OverrideLeavesDerived(policy, inputs, s);
    }
  }

  lemma {:induction false} FigureIsBounded(policy: Policy, inputs: Inputs, hi: nat)
    requires Sensible(policy)
    ensures var cs := ComponentsOf(policy, inputs);
            (forall i :: 0 <= i < |cs| && cs[i].weight > 0 ==> cs[i].score <= hi) ==>
                DerivedFrom(policy, inputs).overall <= hi
  {
    var cs := ComponentsOf(policy, inputs);
    if forall i :: 0 <= i < |cs| && cs[i].weight > 0 ==> cs[i].score <= hi {
      MeanBetween(cs, 0, hi);
    }
  }

  lemma {:induction false} PenaltiesOnlyLower(policy: Policy, inputs: Inputs)
    requires Sensible(policy)
    ensures DerivedFrom(policy, inputs).overall
         <= DerivedFrom(policy, inputs.(contradicted := false, status := Active)).overall
  {
    var plain := inputs.(contradicted := false, status := Active);
    assert ComponentsOf(policy, plain) == ComponentsOf(policy, inputs);
  }

  lemma {:induction false} OverrideLeavesDerived(policy: Policy, inputs: Inputs, s: Option<Score>)
    requires Sensible(policy)
    ensures DerivedFrom(policy, inputs.(analystOverride := s)) == DerivedFrom(policy, inputs)
  {
    assert ComponentsOf(policy, inputs.(analystOverride := s)) == ComponentsOf(policy, inputs);
  }

  lemma {:induction false} WeightIsSomewhere(components: seq<Component>)
    ensures TotalWeight(components) > 0 <==> exists c :: c in components && c.weight > 0
  {
    if components != [] {
      var n := |components| - 1;
      WeightIsSomewhere(components[..n]);
      assert components == components[..n] + [components[n]];
      assert components[n] in components;
    }
  }
}
