/**
 Fitting pre-ranked items into limits: required items first, a section closing at its first
 overflow, saturating counters, and a deadline read once for each item.
 */
module Budget {
  import opened Machine

  datatype Limits = Limits(
    tokens: Option<u64>, bytes: Option<u64>, objects: Option<u64>, relationships: Option<u64>, timeMs: Option<u64>)

  datatype Dimension = Tokens | Bytes | Objects | Relationships | Depth | Time

  datatype Item = Item(id: string, section: string, bytes: u64, tokens: u64, isRelationship: bool, required: bool)

  datatype Failure =
    | RequiredDoesNotFit(item: string, dimension: Dimension, needed: u64, available: u64)
    | DeadlineBeforeRequired(limitMs: u64)

  datatype Usage = Usage(tokens: u64, bytes: u64, objects: u64, relationships: u64)

  datatype Spend = Spend(requested: Option<u64>, estimated: u64, binding: bool)

  datatype Fitted = Fitted(kept: seq<string>, dropped: seq<(string, Dimension)>, spend: map<Dimension, Spend>)

  /** A shortfall: the dimension, what the item needs, and what remains. */
  datatype Over = Over(dimension: Dimension, needed: u64, available: u64)

  const NOTHING := Usage(0, 0, 0, 0)
  const NANOS_PER_MS: nat := 1_000_000

  /** Required items in their order, then the rest in theirs. */
  function Arranged(items: seq<Item>): (r: seq<Item>)
    ensures multiset(r) == multiset(items) && |r| == |items|
  {
    ArrangedSplits(items);
    Chosen(items, true) + Chosen(items, false)
  }

  lemma {:induction false} ArrangedSplits(items: seq<Item>)
    ensures multiset(Chosen(items, true) + Chosen(items, false)) == multiset(items)
    ensures |Chosen(items, true) + Chosen(items, false)| == |items|
  {
    if items != [] {
      ArrangedSplits(items[1..]);
      assert items == [items[0]] + items[1..];
    }
  }

  function Chosen(items: seq<Item>, required: bool): (r: seq<Item>)
    ensures forall i :: i in r ==> i.required == required
  {
    if items == [] then []
    else (if items[0].required == required then [items[0]] else []) + Chosen(items[1..], required)
  }

  function Cost(item: Item): Usage {
    Usage(item.tokens, item.bytes, 1, if item.isRelationship then 1 else 0)
  }

  function Plus(a: Usage, b: Usage): Usage {
    Usage(SatAdd(a.tokens, b.tokens), SatAdd(a.bytes, b.bytes), SatAdd(a.objects, b.objects),
          SatAdd(a.relationships, b.relationships))
  }

  predicate Past(limit: Option<u64>, used: u64) {
    limit.Some? && used > limit.value
  }

  /** Which budget an item would exceed first, with what it needs and what remains. */
  function Exceeds(item: Item, limits: Limits, used: Usage): Option<Over> {
    if Past(limits.tokens, SatAdd(used.tokens, item.tokens)) then
      Some(Over(Tokens, item.tokens, SatSub(limits.tokens.value, used.tokens)))
    else if Past(limits.bytes, SatAdd(used.bytes, item.bytes)) then
      Some(Over(Bytes, item.bytes, SatSub(limits.bytes.value, used.bytes)))
    else if Past(limits.objects, SatAdd(used.objects, 1)) then
      Some(Over(Objects, 1, SatSub(limits.objects.value, used.objects)))
    else if item.isRelationship && Past(limits.relationships, SatAdd(used.relationships, 1)) then
      Some(Over(Relationships, 1, SatSub(limits.relationships.value, used.relationships)))
    else None
  }

  /** Whether a clock reading, in nanoseconds since the work began, is past the deadline. */
  predicate Late(limits: Limits, elapsed: nat) {
    limits.timeMs.Some? && elapsed >= limits.timeMs.value * NANOS_PER_MS
  }

  datatype Verdict = Kept | Dropped(cause: Dimension)

  /** What fitting carries from one item to the next. */
  datatype Tally = Tally(used: Usage, closed: map<string, Dimension>)

  datatype Ruling = Rule(verdict: Verdict, tally: Tally) | Fail(failure: Failure)

  function Judge(item: Item, limits: Limits, tally: Tally, elapsed: nat): Ruling {
    if Late(limits, elapsed) then
      if item.required then Fail(DeadlineBeforeRequired(limits.timeMs.value)) else Rule(Dropped(Time), tally)
    else if item.section in tally.closed && !item.required then
      Rule(Dropped(tally.closed[item.section]), tally)
    else
      match Exceeds(item, limits, tally.used)
      case Some(Over(dimension, needed, available)) =>
        if item.required then Fail(RequiredDoesNotFit(item.id, dimension, needed, available))
        else Rule(Dropped(dimension), tally.(closed := tally.closed[item.section := dimension]))
      case None => Rule(Kept, tally.(used := Plus(tally.used, Cost(item))))
  }

  /** The verdict on every item in turn, or the failure that stopped it. */
  function Verdicts(items: seq<Item>, clock: seq<nat>, limits: Limits, tally: Tally): (r: Result<seq<Verdict>, Failure>)
    requires |clock| >= |items|
    ensures r.Ok? ==> |r.value| == |items|
  {
    if items == [] then Ok([])
    else
      match Judge(items[0], limits, tally, clock[0])
      case Fail(failure) => Err(failure)
      case Rule(verdict, tally') =>
        match Verdicts(items[1..], clock[1..], limits, tally')
        case Err(failure) => Err(failure)
        case Ok(rest) => Ok([verdict] + rest)
  }

  function KeptIds(items: seq<Item>, verdicts: seq<Verdict>): seq<string>
    requires |items| == |verdicts|
  {
    if items == [] then []
    else (if verdicts[0].Kept? then [items[0].id] else []) + KeptIds(items[1..], verdicts[1..])
  }

  function DroppedIds(items: seq<Item>, verdicts: seq<Verdict>): seq<(string, Dimension)>
    requires |items| == |verdicts|
  {
    if items == [] then []
    else
      var rest := DroppedIds(items[1..], verdicts[1..]);
      (if verdicts[0].Dropped? then [(items[0].id, verdicts[0].cause)] else []) + rest
  }

  /** The counters after the kept items are added to `used`, one by one. */
  function After(used: Usage, items: seq<Item>, verdicts: seq<Verdict>): Usage
    requires |items| == |verdicts|
    decreases |items|
  {
    if items == [] then used
    else After(if verdicts[0].Kept? then Plus(used, Cost(items[0])) else used, items[1..], verdicts[1..])
  }

  /** The accounting: a dimension binds when some item was dropped for it. */
  function Accounts(limits: Limits, used: Usage, dims: set<Dimension>, elapsed: nat): map<Dimension, Spend> {
    map[Tokens := Spend(limits.tokens, used.tokens, Tokens in dims),
        Bytes := Spend(limits.bytes, used.bytes, Bytes in dims),
        Objects := Spend(limits.objects, used.objects, Objects in dims),
        Relationships := Spend(limits.relationships, used.relationships, Relationships in dims),
        Time := Spend(limits.timeMs, Clamp(elapsed / NANOS_PER_MS), Time in dims)]
  }

  function Reasons(verdicts: seq<Verdict>): set<Dimension> {
    set v | v in verdicts && v.Dropped? :: v.cause
  }

  /** What a fit returns for the verdicts reached: the items split by verdict, and the accounting. */
  function Report(ordered: seq<Item>, reached: Result<seq<Verdict>, Failure>, limits: Limits, elapsed: nat)
    : Result<Fitted, Failure>
    requires reached.Ok? ==> |reached.value| == |ordered|
  {
    match reached
    case Err(failure) => Err(failure)
    case Ok(verdicts) =>
      Ok(Fitted(KeptIds(ordered, verdicts), DroppedIds(ordered, verdicts),
                Accounts(limits, After(NOTHING, ordered, verdicts), Reasons(verdicts), elapsed)))
  }

  /** What fitting returns, item by item. */
  function Fitting(items: seq<Item>, limits: Limits, clock: seq<nat>): Result<Fitted, Failure>
    requires |clock| == |items| + 1
  {
    var ordered := Arranged(items);
    Report(ordered, Verdicts(ordered, clock, limits, Tally(NOTHING, map[])), limits, clock[|items|])
  }

  /**
   Fit items into limits. `clock[k]` is the reading taken for the k-th item considered, and the last
   reading is taken for the report.
   */
  method Fit(items: seq<Item>, limits: Limits, clock: seq<nat>) returns (r: Result<Fitted, Failure>)
    requires |clock| == |items| + 1
    ensures r == Fitting(items, limits, clock)
  {
    var ordered := Arranged(items);
    var used := NOTHING;
    var kept: seq<string>, dropped: seq<(string, Dimension)>, binding: set<Dimension> := [], [], {};
    var closed: map<string, Dimension> := map[];
    ghost var past: seq<Verdict> := [];
    var k := 0;
    Starts(ordered, clock, limits);
    while k < |ordered|
      invariant k == |past| <= |ordered|
      invariant Stands(ordered, clock, limits, past, kept, dropped, binding, Tally(used, closed))
    {
      var item, elapsed := ordered[k], clock[k];
      ghost var before := Tally(used, closed);
      if Late(limits, elapsed) {
        if item.required {
          Stops(ordered, clock, limits, past, kept, dropped, binding, before);
          return Err(DeadlineBeforeRequired(limits.timeMs.value));
        }
        Turn(ordered, clock, limits, past, kept, dropped, binding, before, Dropped(Time), before);
        binding := binding + {Time};
        dropped := dropped + [(item.id, Time)];
        past := past + [Dropped(Time)];
      } else if item.section in closed && !item.required {
        ghost var verdict := Dropped(closed[item.section]);
        Turn(ordered, clock, limits, past, kept, dropped, binding, before, verdict, before);
        ClosedIsBinding(ordered, clock, limits, past, kept, dropped, binding, before, item.section);
        dropped := dropped + [(item.id, closed[item.section])];
        past := past + [verdict];
      } else {
        var over := Exceeds(item, limits, used);
        if over.Some? {
          var Over(dimension, needed, available) := over.value;
          if item.required {
            Stops(ordered, clock, limits, past, kept, dropped, binding, before);
            return Err(RequiredDoesNotFit(item.id, dimension, needed, available));
          }
          closed := closed[item.section := dimension];
          Turn(ordered, clock, limits, past, kept, dropped, binding, before, Dropped(dimension), Tally(used, closed));
          binding := binding + {dimension};
          dropped := dropped + [(item.id, dimension)];
          past := past + [Dropped(dimension)];
        } else {
          used := used.(tokens := SatAdd(used.tokens, item.tokens), bytes := SatAdd(used.bytes, item.bytes));
          used := used.(objects := SatAdd(used.objects, 1));
          if item.isRelationship {
            used := used.(relationships := SatAdd(used.relationships, 1));
          }
          assert used == Plus(before.used, Cost(item));
          Turn(ordered, clock, limits, past, kept, dropped, binding, before, Kept, Tally(used, closed));
          kept := kept + [item.id];
          past := past + [Kept];
        }
      }
      k := k + 1;
    }
    Ends(ordered, clock, limits, past, kept, dropped, binding, Tally(used, closed));
    return Ok(Fitted(kept, dropped, Accounts(limits, used, binding, clock[|items|])));
  }

  /** Results with the verdicts already reached put back in front. */
  ghost function Prefixed(past: seq<Verdict>, rest: Result<seq<Verdict>, Failure>): Result<seq<Verdict>, Failure> {
    match rest
    case Err(failure) => Err(failure)
    case Ok(verdicts) => Ok(past + verdicts)
  }

  /** What the loop has built from the items already considered. */
  ghost predicate Progress(seen: seq<Item>, past: seq<Verdict>, kept: seq<string>, dropped: seq<(string, Dimension)>,
                           used: Usage, binding: set<Dimension>, closed: map<string, Dimension>)
  {
    && |seen| == |past|
    && kept == KeptIds(seen, past)
    && dropped == DroppedIds(seen, past)
    && used == After(NOTHING, seen, past)
    && binding == Reasons(past)
    && forall s :: s in closed ==> closed[s] in binding
  }

  /** Where the loop stands: what it has built, and that judging the rest from here gives the whole answer. */
  ghost predicate Stands(ordered: seq<Item>, clock: seq<nat>, limits: Limits, past: seq<Verdict>, kept: seq<string>,
                         dropped: seq<(string, Dimension)>, binding: set<Dimension>, tally: Tally)
  {
    var k := |past|;
    && k <= |ordered| <= |clock|
    && Progress(ordered[..k], past, kept, dropped, tally.used, binding, tally.closed)
    && Prefixed(past, Verdicts(ordered[k..], clock[k..], limits, tally))
       == Verdicts(ordered, clock, limits, Tally(NOTHING, map[]))
  }

  lemma {:induction false} Starts(ordered: seq<Item>, clock: seq<nat>, limits: Limits)
    requires |ordered| <= |clock|
    ensures Stands(ordered, clock, limits, [], [], [], {}, Tally(NOTHING, map[]))
  {
    assert ordered[0..] == ordered && clock[0..] == clock;
    var whole := Verdicts(ordered, clock, limits, Tally(NOTHING, map[]));
    assert whole.Ok? ==> [] + whole.value == whole.value;
  }

  lemma {:induction false} Ends(ordered: seq<Item>, clock: seq<nat>, limits: Limits, past: seq<Verdict>,
                                kept: seq<string>, dropped: seq<(string, Dimension)>, binding: set<Dimension>,
                                tally: Tally)
    requires Stands(ordered, clock, limits, past, kept, dropped, binding, tally) && |past| == |ordered|
    ensures Verdicts(ordered, clock, limits, Tally(NOTHING, map[])) == Ok(past)
    ensures kept == KeptIds(ordered, past) && dropped == DroppedIds(ordered, past)
    ensures tally.used == After(NOTHING, ordered, past) && binding == Reasons(past)
  {
    assert ordered[..|past|] == ordered && past + [] == past;
  }

  lemma {:induction false} Stops(ordered: seq<Item>, clock: seq<nat>, limits: Limits, past: seq<Verdict>,
                                 kept: seq<string>, dropped: seq<(string, Dimension)>, binding: set<Dimension>,
                                 tally: Tally)
    requires Stands(ordered, clock, limits, past, kept, dropped, binding, tally) && |past| < |ordered|
    requires Judge(ordered[|past|], limits, tally, clock[|past|]).Fail?
    ensures Verdicts(ordered, clock, limits, Tally(NOTHING, map[]))
         == Err(Judge(ordered[|past|], limits, tally, clock[|past|]).failure)
  {
  }

  lemma {:induction false} ClosedIsBinding(ordered: seq<Item>, clock: seq<nat>, limits: Limits, past: seq<Verdict>,
                                           kept: seq<string>, dropped: seq<(string, Dimension)>,
                                           binding: set<Dimension>, tally: Tally, section: string)
    requires Stands(ordered, clock, limits, past, kept, dropped, binding, tally) && section in tally.closed
    ensures binding + {tally.closed[section]} == binding
  {
  }

  /** One turn of the loop: one more verdict, and each list one entry longer or the same. */
  lemma {:induction false} Turn(ordered: seq<Item>, clock: seq<nat>, limits: Limits, past: seq<Verdict>,
                                kept: seq<string>, dropped: seq<(string, Dimension)>, binding: set<Dimension>,
                                tally: Tally, verdict: Verdict, tally': Tally)
    requires Stands(ordered, clock, limits, past, kept, dropped, binding, tally) && |past| < |ordered|
    requires Judge(ordered[|past|], limits, tally, clock[|past|]) == Rule(verdict, tally')
    ensures var id, r := ordered[|past|].id, past + [verdict];
            && (verdict.Kept? ==> Stands(ordered, clock, limits, r, kept + [id], dropped, binding, tally'))
            && (verdict.Dropped? ==>
                  Stands(ordered, clock, limits, r, kept, dropped + [(id, verdict.cause)],
                         binding + {verdict.cause}, tally'))
  {
    var k := |past|;
    ListsExtend(ordered[..k + 1], past, verdict);
    AfterExtends(NOTHING, ordered[..k + 1], past, verdict);
    assert ordered[..k + 1][..k] == ordered[..k];
    assert ordered[k..][1..] == ordered[k + 1..] && clock[k..][1..] == clock[k + 1..];
    var rest := Verdicts(ordered[k + 1..], clock[k + 1..], limits, tally');
    if rest.Ok? {
      Regroup(past, [verdict], rest.value);
    }
    ReasonsExtend(past, verdict);
  }

  lemma {:induction false} ReasonsExtend(past: seq<Verdict>, verdict: Verdict)
    ensures Reasons(past + [verdict]) == Reasons(past) + if verdict.Dropped? then {verdict.cause} else {}
  {
    assert verdict in past + [verdict];
    assert forall v :: v in past + [verdict] <==> v in past || v == verdict;
  }

  lemma {:induction false} ListsExtend(items: seq<Item>, past: seq<Verdict>, verdict: Verdict)
    requires |items| == |past| + 1
    ensures var r, n := past + [verdict], |past|;
            && KeptIds(items, r) == KeptIds(items[..n], past) + (if verdict.Kept? then [items[n].id] else [])
            && DroppedIds(items, r)
               == DroppedIds(items[..n], past) + (if verdict.Dropped? then [(items[n].id, verdict.cause)] else [])
    decreases |items|
  {
    if past != [] {
      ListsExtend(items[1..], past[1..], verdict);
      assert (past + [verdict])[1..] == past[1..] + [verdict];
      assert items[1..][..|past| - 1] == items[..|past|][1..];
    }
  }

  lemma {:induction false} AfterExtends(used: Usage, items: seq<Item>, past: seq<Verdict>, verdict: Verdict)
    requires |items| == |past| + 1
    ensures var n := |past|;
            var before := After(used, items[..n], past);
            After(used, items, past + [verdict]) == (if verdict.Kept? then Plus(before, Cost(items[n])) else before)
    decreases |items|
  {
    if past != [] {
      AfterExtends(if past[0].Kept? then Plus(used, Cost(items[0])) else used, items[1..], past[1..], verdict);
      assert (past + [verdict])[1..] == past[1..] + [verdict];
      assert items[1..][..|past| - 1] == items[..|past|][1..];
    }
  }

  // ----- reading one dimension at a time -----

  /** What an item costs in a dimension. Depth and time are not counted. */
  function Need(item: Item, d: Dimension): u64 {
    match d
    case Tokens => item.tokens
    case Bytes => item.bytes
    case Objects => 1
    case Relationships => if item.isRelationship then 1 else 0
    case Depth => 0
    case Time => 0
  }

  /** The limit a dimension is counted against, if it is counted and limited. */
  function LimitOn(limits: Limits, d: Dimension): Option<u64> {
    match d
    case Tokens => limits.tokens
    case Bytes => limits.bytes
    case Objects => limits.objects
    case Relationships => limits.relationships
    case Depth => None
    case Time => None
  }

  function UsedOf(used: Usage, d: Dimension): u64 {
    match d
    case Tokens => used.tokens
    case Bytes => used.bytes
    case Objects => used.objects
    case Relationships => used.relationships
    case Depth => 0
    case Time => 0
  }

  /** The exact sum of what some items cost in a dimension. */
  function Total(items: seq<Item>, d: Dimension): nat {
    if items == [] then 0 else Need(items[0], d) + Total(items[1..], d)
  }

  function KeptItems(items: seq<Item>, verdicts: seq<Verdict>): seq<Item>
    requires |items| == |verdicts|
  {
    if items == [] then []
    else (if verdicts[0].Kept? then [items[0]] else []) + KeptItems(items[1..], verdicts[1..])
  }

  ghost predicate Within(limits: Limits, used: Usage) {
    forall d :: !Past(LimitOn(limits, d), UsedOf(used, d))
  }

  /** An item cannot be added in this dimension. */
  ghost predicate Overflows(limits: Limits, used: Usage, item: Item, d: Dimension) {
    Past(LimitOn(limits, d), SatAdd(UsedOf(used, d), Need(item, d)))
  }

  lemma {:induction false} PlusReads(a: Usage, item: Item, d: Dimension)
    ensures UsedOf(Plus(a, Cost(item)), d) == SatAdd(UsedOf(a, d), Need(item, d))
  {
  }

  /** Within the limits, the check refuses an item exactly when some dimension overflows, and says by how much. */
  lemma {:induction false} ExceedsMeans(item: Item, limits: Limits, used: Usage)
    requires Within(limits, used)
    ensures Exceeds(item, limits, used).None? <==> forall d :: !Overflows(limits, used, item, d)
    ensures Exceeds(item, limits, used).None? ==> Within(limits, Plus(used, Cost(item)))
    ensures Exceeds(item, limits, used).Some? ==>
              var over := Exceeds(item, limits, used).value;
              && Overflows(limits, used, item, over.dimension)
              && over.needed == Need(item, over.dimension) && over.needed > over.available
              && over.available == LimitOn(limits, over.dimension).value - UsedOf(used, over.dimension)
  {
    forall d ensures UsedOf(Plus(used, Cost(item)), d) == SatAdd(UsedOf(used, d), Need(item, d)) {
      PlusReads(used, item, d);
    }
    assert forall d :: !Past(LimitOn(limits, d), UsedOf(used, d));
    assert !Past(LimitOn(limits, Relationships), UsedOf(used, Relationships));
    if Exceeds(item, limits, used).None? {
      forall d ensures !Overflows(limits, used, item, d) {
        match d case Tokens => case Bytes => case Objects => case Relationships => case Depth => case Time =>
      }
    } else {
      assert Overflows(limits, used, item, Exceeds(item, limits, used).value.dimension);
    }
  }

  /** The counters are the exact totals of what was kept, clamped. */
  lemma {:induction false} AfterIsTotal(used: Usage, n: nat, items: seq<Item>, verdicts: seq<Verdict>, d: Dimension)
    requires |items| == |verdicts| && UsedOf(used, d) == Clamp(n)
    requires d.Depth? || d.Time? ==> n == 0
    ensures UsedOf(After(used, items, verdicts), d) == Clamp(n + Total(KeptItems(items, verdicts), d))
    ensures UsedOf(used, d) <= UsedOf(After(used, items, verdicts), d)
    decreases |items|
  {
    if items != [] {
      var used' := if verdicts[0].Kept? then Plus(used, Cost(items[0])) else used;
      var n' := if verdicts[0].Kept? then n + Need(items[0], d) else n;
      PlusReads(used, items[0], d);
      AfterIsTotal(used', n', items[1..], verdicts[1..], d);
      var rest := KeptItems(items[1..], verdicts[1..]);
      if verdicts[0].Kept? {
        assert KeptItems(items, verdicts)[1..] == rest;
      } else {
        assert KeptItems(items, verdicts) == rest;
      }
    }
  }

  // ----- what a successful fit promises -----

  ghost predicate Nondecreasing(clock: seq<nat>) {
    forall i, j :: 0 <= i <= j < |clock| ==> clock[i] <= clock[j]
  }

  /** Nothing dropped for a resource comes before `i` in its section. */
  ghost predicate FirstOverflow(items: seq<Item>, verdicts: seq<Verdict>, i: nat)
    requires |items| == |verdicts| && i < |items|
  {
    && verdicts[i].Dropped? && !verdicts[i].cause.Time?
    && forall j :: 0 <= j < i && items[j].section == items[i].section && verdicts[j].Dropped? ==>
         verdicts[j].cause.Time?
  }

  /** Required items are kept, and the counters end within every limit. */
  lemma {:induction false} KeepsRequiredWithin(items: seq<Item>, clock: seq<nat>, limits: Limits, tally: Tally)
    requires |clock| >= |items| && Within(limits, tally.used)
    requires Verdicts(items, clock, limits, tally).Ok?
    ensures var v := Verdicts(items, clock, limits, tally).value;
            && Within(limits, After(tally.used, items, v))
            && forall i :: 0 <= i < |items| && items[i].required ==> v[i].Kept?
  {
    if items != [] {
      ExceedsMeans(items[0], limits, tally.used);
      KeepsRequiredWithin(items[1..], clock[1..], limits, Judge(items[0], limits, tally, clock[0]).tally);
    }
  }

  /** A closed section stays closed; past the deadline everything optional is dropped. */
  lemma {:induction false} StaysShut(items: seq<Item>, clock: seq<nat>, limits: Limits, tally: Tally, i: nat)
    requires |clock| >= |items| && i < |items| && !items[i].required && Nondecreasing(clock)
    requires items[i].section in tally.closed || Late(limits, clock[0])
    requires Verdicts(items, clock, limits, tally).Ok?
    ensures Verdicts(items, clock, limits, tally).value[i].Dropped?
    ensures Late(limits, clock[0]) ==> Verdicts(items, clock, limits, tally).value[i] == Dropped(Time)
  {
    if i > 0 {
      StaysShut(items[1..], clock[1..], limits, Judge(items[0], limits, tally, clock[0]).tally, i - 1);
    }
  }

  /** Once something optional in a section is dropped, nothing optional after it in that section is kept. */
  lemma {:induction false} NeverSkipsAhead(items: seq<Item>, clock: seq<nat>, limits: Limits, tally: Tally, i: nat,
                                           j: nat)
    requires |clock| >= |items| && Nondecreasing(clock) && i < j < |items|
    requires Verdicts(items, clock, limits, tally).Ok?
    requires items[i].section == items[j].section && !items[j].required
    requires Verdicts(items, clock, limits, tally).value[i].Dropped?
    ensures Verdicts(items, clock, limits, tally).value[j].Dropped?
  {
    var next := Judge(items[0], limits, tally, clock[0]).tally;
    if i == 0 {
      StaysShut(items[1..], clock[1..], limits, next, j - 1);
    } else {
      NeverSkipsAhead(items[1..], clock[1..], limits, next, i - 1, j - 1);
    }
  }

  lemma {:induction false} FirstInTail(items: seq<Item>, verdicts: seq<Verdict>, i: nat)
    requires |items| == |verdicts| && 0 < i < |items| && FirstOverflow(items, verdicts, i)
    ensures FirstOverflow(items[1..], verdicts[1..], i - 1)
    ensures items[0].section == items[i].section && verdicts[0].Dropped? ==> verdicts[0].cause.Time?
  {
    assert forall j :: 0 <= j < i - 1 ==> items[1..][j] == items[j + 1] && verdicts[1..][j] == verdicts[j + 1];
  }

  /** The first resource drop of a section still overflows the final counters, in the dimension it names. */
  lemma {:induction false} DropStillOverflows(items: seq<Item>, clock: seq<nat>, limits: Limits, tally: Tally, i: nat)
    requires |clock| >= |items| && i < |items| && Within(limits, tally.used)
    requires Verdicts(items, clock, limits, tally).Ok?
    requires FirstOverflow(items, Verdicts(items, clock, limits, tally).value, i)
    requires items[i].section !in tally.closed
    ensures var v := Verdicts(items, clock, limits, tally).value;
            Overflows(limits, After(tally.used, items, v), items[i], v[i].cause)
  {
    var v := Verdicts(items, clock, limits, tally).value;
    var next := Judge(items[0], limits, tally, clock[0]).tally;
    ExceedsMeans(items[0], limits, tally.used);
    if i == 0 {
      AfterIsTotal(tally.used, UsedOf(tally.used, v[0].cause), items, v, v[0].cause);
    } else {
      FirstInTail(items, v, i);
      DropStillOverflows(items[1..], clock[1..], limits, next, i - 1);
    }
  }

  /** Every drop names a limit that is set, and never depth. */
  lemma {:induction false} DropsNameSetLimits(items: seq<Item>, clock: seq<nat>, limits: Limits, tally: Tally)
    requires |clock| >= |items| && Within(limits, tally.used)
    requires forall s :: s in tally.closed ==> LimitOn(limits, tally.closed[s]).Some?
    requires Verdicts(items, clock, limits, tally).Ok?
    ensures forall d :: d in Reasons(Verdicts(items, clock, limits, tally).value) ==>
              if d.Time? then limits.timeMs.Some? else LimitOn(limits, d).Some?
  {
    if items != [] {
      ExceedsMeans(items[0], limits, tally.used);
      DropsNameSetLimits(items[1..], clock[1..], limits, Judge(items[0], limits, tally, clock[0]).tally);
    }
  }

  function DroppedOnly(dropped: seq<(string, Dimension)>): seq<string> {
    if dropped == [] then [] else [dropped[0].0] + DroppedOnly(dropped[1..])
  }

  function Ids(items: seq<Item>): seq<string> {
    if items == [] then [] else [items[0].id] + Ids(items[1..])
  }

  /** Kept and dropped together are exactly the items, each once. */
  lemma {:induction false} NothingLostOrInvented(items: seq<Item>, verdicts: seq<Verdict>)
    requires |items| == |verdicts|
    ensures multiset(KeptIds(items, verdicts)) + multiset(DroppedOnly(DroppedIds(items, verdicts)))
         == multiset(Ids(items))
  {
    if items != [] {
      var id, kept, dropped := items[0].id, KeptIds(items[1..], verdicts[1..]), DroppedIds(items[1..], verdicts[1..]);
      NothingLostOrInvented(items[1..], verdicts[1..]);
      assert multiset(Ids(items)) == multiset([id]) + multiset(Ids(items[1..]));
      if verdicts[0].Kept? {
        assert DroppedIds(items, verdicts) == dropped;
        assert multiset(KeptIds(items, verdicts)) == multiset([id]) + multiset(kept);
      } else {
        assert KeptIds(items, verdicts) == kept;
        assert DroppedIds(items, verdicts)[1..] == dropped;
        assert multiset(DroppedOnly(DroppedIds(items, verdicts))) == multiset([id]) + multiset(DroppedOnly(dropped));
      }
    }
  }

  /** In a closed section a drop is for the reason the section closed, or for the deadline. */
  lemma {:induction false} ClosedCause(items: seq<Item>, clock: seq<nat>, limits: Limits, tally: Tally, i: nat)
    requires |clock| >= |items| && i < |items| && items[i].section in tally.closed
    requires Verdicts(items, clock, limits, tally).Ok?
    ensures var v := Verdicts(items, clock, limits, tally).value;
            v[i].Dropped? ==>
              v[i].cause == tally.closed[items[i].section] || (v[i].cause.Time? && Late(limits, clock[i]))
  {
    if i > 0 {
      ClosedCause(items[1..], clock[1..], limits, Judge(items[0], limits, tally, clock[0]).tally, i - 1);
    }
  }

  /** A drop is for the deadline, once past it, or for what first overflowed the section. */
  lemma {:induction false} DropIsEarned(items: seq<Item>, clock: seq<nat>, limits: Limits, tally: Tally, i: nat)
    returns (j: nat)
    requires |clock| >= |items| && i < |items| && items[i].section !in tally.closed && Within(limits, tally.used)
    requires Verdicts(items, clock, limits, tally).Ok?
    requires Verdicts(items, clock, limits, tally).value[i].Dropped?
    ensures var v := Verdicts(items, clock, limits, tally).value;
            if v[i].cause.Time? then Late(limits, clock[i])
            else j <= i && items[j].section == items[i].section && v[j] == v[i] && FirstOverflow(items, v, j)
  {
    var v := Verdicts(items, clock, limits, tally).value;
    var next := Judge(items[0], limits, tally, clock[0]).tally;
    ExceedsMeans(items[0], limits, tally.used);
    if i == 0 || items[i].section in next.closed {
      if i > 0 {
        ClosedCause(items[1..], clock[1..], limits, next, i - 1);
      }
      j := 0;
    } else {
      var k := DropIsEarned(items[1..], clock[1..], limits, next, i - 1);
      j := k + 1;
      if !v[i].cause.Time? {
        FirstInWhole(items, v, j);
      }
    }
  }

  lemma {:induction false} FirstInWhole(items: seq<Item>, verdicts: seq<Verdict>, i: nat)
    requires |items| == |verdicts| && 0 < i < |items| && FirstOverflow(items[1..], verdicts[1..], i - 1)
    requires items[0].section == items[i].section && verdicts[0].Dropped? ==> verdicts[0].cause.Time?
    ensures FirstOverflow(items, verdicts, i)
  {
    forall j | 0 <= j < i && items[j].section == items[i].section && verdicts[j].Dropped?
      ensures verdicts[j].cause.Time?
    {
      if j > 0 {
        assert items[1..][j - 1] == items[j] && verdicts[1..][j - 1] == verdicts[j];
      }
    }
  }

  /**
   In each limited dimension a successful fit reports no more than the limit. Its counters are the
   exact totals of what it kept, clamped, so any limit below the clamp bounds the exact total.
   */
  lemma {:induction false} FitStaysWithin(items: seq<Item>, clock: seq<nat>, limits: Limits, d: Dimension)
    requires |clock| >= |items|
    requires Verdicts(items, clock, limits, Tally(NOTHING, map[])).Ok?
    ensures var v := Verdicts(items, clock, limits, Tally(NOTHING, map[])).value;
            var used := UsedOf(After(NOTHING, items, v), d);
            && used == Clamp(Total(KeptItems(items, v), d))
            && (LimitOn(limits, d).Some? ==> used <= LimitOn(limits, d).value)
            && (LimitOn(limits, d).Some? && LimitOn(limits, d).value < U64_MAX ==>
                  Total(KeptItems(items, v), d) <= LimitOn(limits, d).value)
  {
    var start := Tally(NOTHING, map[]);
    KeepsRequiredWithin(items, clock, limits, start);
    AfterIsTotal(NOTHING, 0, items, Verdicts(items, clock, limits, start).value, d);
  }

  lemma {:induction false} LateIsDropped(items: seq<Item>, clock: seq<nat>, limits: Limits, tally: Tally, i: nat)
    requires |clock| >= |items| && i < |items| && !items[i].required && Late(limits, clock[i])
    requires Verdicts(items, clock, limits, tally).Ok?
    ensures Verdicts(items, clock, limits, tally).value[i] == Dropped(Time)
  {
    if i > 0 {
      LateIsDropped(items[1..], clock[1..], limits, Judge(items[0], limits, tally, clock[0]).tally, i - 1);
    }
  }

  /** Some item of this section, here or earlier, was the first to overflow. */
  ghost predicate Closed(items: seq<Item>, verdicts: seq<Verdict>, i: nat)
    requires |items| == |verdicts| && i < |items|
  {
    exists j :: 0 <= j <= i && items[j].section == items[i].section && FirstOverflow(items, verdicts, j)
  }

  /**
   Exactly what is left out: the optional items considered past the deadline, and those at or after
   the first overflow of their section. That first item still overflows what was finally kept, in the
   dimension it names.
   */
  lemma {:induction false} SectionsClose(items: seq<Item>, clock: seq<nat>, limits: Limits, i: nat)
    requires |clock| >= |items| && Nondecreasing(clock) && i < |items|
    requires Verdicts(items, clock, limits, Tally(NOTHING, map[])).Ok?
    ensures var v := Verdicts(items, clock, limits, Tally(NOTHING, map[])).value;
            && (v[i].Dropped? <==> !items[i].required && (Late(limits, clock[i]) || Closed(items, v, i)))
            && (FirstOverflow(items, v, i) ==> Overflows(limits, After(NOTHING, items, v), items[i], v[i].cause))
  {
    var start := Tally(NOTHING, map[]);
    var v := Verdicts(items, clock, limits, start).value;
    KeepsRequiredWithin(items, clock, limits, start);
    if v[i].Dropped? {
      var j := DropIsEarned(items, clock, limits, start, i);
    } else if !items[i].required {
      if Late(limits, clock[i]) {
        LateIsDropped(items, clock, limits, start, i);
      }
      forall j | 0 <= j <= i && items[j].section == items[i].section && FirstOverflow(items, v, j)
        ensures false
      {
        NeverSkipsAhead(items, clock, limits, start, j, i);
      }
    }
    if FirstOverflow(items, v, i) {
      DropStillOverflows(items, clock, limits, start, i);
    }
  }

  // ----- when a fit fails -----

  /** Optional items never fail a fit. */
  lemma {:induction false} OptionalNeverFails(items: seq<Item>, clock: seq<nat>, limits: Limits, tally: Tally)
    requires |clock| >= |items| && forall i :: i in items ==> !i.required
    ensures Verdicts(items, clock, limits, tally).Ok?
  {
    if items != [] {
      OptionalNeverFails(items[1..], clock[1..], limits, Judge(items[0], limits, tally, clock[0]).tally);
    }
  }

  /** Required items at the front succeed exactly when no reading is late and their total fits. */
  lemma {:induction false} RequiredDecide(required: seq<Item>, optional: seq<Item>, clock: seq<nat>, limits: Limits,
                                          used: Usage)
    requires forall i :: i in required ==> i.required
    requires forall i :: i in optional ==> !i.required
    requires |clock| >= |required| + |optional| && Within(limits, used)
    ensures Verdicts(required + optional, clock, limits, Tally(used, map[])).Ok? <==>
              && (forall i :: 0 <= i < |required| ==> !Late(limits, clock[i]))
              && (forall d :: !Past(LimitOn(limits, d), SatAdd(UsedOf(used, d), Total(required, d))))
    ensures var r := Verdicts(required + optional, clock, limits, Tally(used, map[]));
            r.Err? && r.error.RequiredDoesNotFit? ==> r.error.needed > r.error.available
  {
    var all := required + optional;
    if required == [] {
      assert all == optional;
      OptionalNeverFails(optional, clock, limits, Tally(used, map[]));
      assert forall d :: !Past(LimitOn(limits, d), UsedOf(used, d));
    } else {
      var item := required[0];
      var used' := Plus(used, Cost(item));
      assert all[1..] == required[1..] + optional;
      assert item in required;
      ExceedsMeans(item, limits, used);
      forall d ensures SatAdd(UsedOf(used', d), Total(required[1..], d)) == SatAdd(UsedOf(used, d), Total(required, d))
               ensures SatAdd(UsedOf(used, d), Need(item, d)) <= SatAdd(UsedOf(used, d), Total(required, d)) {
        PlusReads(used, item, d);
      }
      if !Late(limits, clock[0]) && Exceeds(item, limits, used).None? {
        RequiredDecide(required[1..], optional, clock[1..], limits, used');
      } else if Exceeds(item, limits, used).Some? {
        assert Overflows(limits, used, item, Exceeds(item, limits, used).value.dimension);
      }
    }
  }

  /**
   A fit succeeds exactly when every required item is considered before the deadline and, in
   every limited dimension, the clamped total of the required items alone is within the limit. A
   refusal for want of room always needed more than was left.
   */
  lemma {:induction false} FitSucceedsExactly(items: seq<Item>, clock: seq<nat>, limits: Limits)
    requires |clock| >= |items|
    ensures var r := Verdicts(Arranged(items), clock, limits, Tally(NOTHING, map[]));
            var required := Chosen(items, true);
            && (r.Ok? <==> && (forall i :: 0 <= i < |required| ==> !Late(limits, clock[i]))
                           && (forall d :: !Past(LimitOn(limits, d), Clamp(Total(required, d)))))
            && (r.Err? && r.error.RequiredDoesNotFit? ==> r.error.needed > r.error.available)
  {
    assert |Chosen(items, true)| + |Chosen(items, false)| == |Arranged(items)|;
    RequiredDecide(Chosen(items, true), Chosen(items, false), clock, limits, NOTHING);
    forall d ensures SatAdd(UsedOf(NOTHING, d), Total(Chosen(items, true), d)) == Clamp(Total(Chosen(items, true), d)) {
    }
  }

  lemma {:induction false} TotalAppends(a: seq<Item>, b: seq<Item>, d: Dimension)
    ensures Total(a + b, d) == Total(a, d) + Total(b, d)
  {
    if a == [] {
      assert a + b == b;
    } else {
      assert (a + b)[1..] == a[1..] + b;
      TotalAppends(a[1..], b, d);
    }
  }

  lemma {:induction false} Cancel(x: Item, a: multiset<Item>, b: multiset<Item>)
    requires multiset{x} + a == multiset{x} + b
    ensures a == b
  {
    forall y ensures a[y] == b[y] {
      assert (multiset{x} + a)[y] == (multiset{x} + b)[y];
    }
  }

  lemma {:induction false} TotalWithout(b: seq<Item>, i: nat, d: Dimension)
    requires i < |b|
    ensures multiset(b) == multiset{b[i]} + multiset(b[..i] + b[i + 1..])
    ensures Total(b, d) == Need(b[i], d) + Total(b[..i] + b[i + 1..], d)
  {
    assert b == b[..i] + ([b[i]] + b[i + 1..]);
    TotalAppends(b[..i], [b[i]] + b[i + 1..], d);
    TotalAppends(b[..i], b[i + 1..], d);
  }

  lemma {:induction false} TotalIgnoresOrder(a: seq<Item>, b: seq<Item>, d: Dimension)
    requires multiset(a) == multiset(b)
    ensures Total(a, d) == Total(b, d)
  {
    if a == [] {
      assert |b| == |multiset(b)| == 0;
    } else {
      assert a[0] in multiset(b);
      var i :| 0 <= i < |b| && b[i] == a[0];
      assert a == [a[0]] + a[1..];
      TotalWithout(b, i, d);
      assert multiset{a[0]} + multiset(a[1..]) == multiset(a);
      Cancel(a[0], multiset(a[1..]), multiset(b[..i] + b[i + 1..]));
      TotalIgnoresOrder(a[1..], b[..i] + b[i + 1..], d);
    }
  }

  /** With no deadline, neither the order of the required items nor anything optional decides success. */
  lemma {:induction false} SuccessIsAboutRequired(a: seq<Item>, b: seq<Item>, clockA: seq<nat>, clockB: seq<nat>,
                                                  limits: Limits)
    requires |clockA| >= |a| && |clockB| >= |b| && limits.timeMs.None?
    requires multiset(Chosen(a, true)) == multiset(Chosen(b, true))
    ensures Verdicts(Arranged(a), clockA, limits, Tally(NOTHING, map[])).Ok?
       <==> Verdicts(Arranged(b), clockB, limits, Tally(NOTHING, map[])).Ok?
  {
    FitSucceedsExactly(a, clockA, limits);
    FitSucceedsExactly(b, clockB, limits);
    forall d ensures Total(Chosen(a, true), d) == Total(Chosen(b, true), d) {
      TotalIgnoresOrder(Chosen(a, true), Chosen(b, true), d);
    }
  }

  // ----- what the caller is handed -----

  /** Some item with this identifier is dropped for this dimension. */
  ghost predicate NamedBy(f: Fitted, d: Dimension) {
    exists k :: 0 <= k < |f.dropped| && f.dropped[k].1 == d
  }

  lemma {:induction false} DropsAreListed(items: seq<Item>, verdicts: seq<Verdict>, d: Dimension)
    requires |items| == |verdicts|
    ensures d in Reasons(verdicts) <==>
              exists k :: 0 <= k < |DroppedIds(items, verdicts)| && DroppedIds(items, verdicts)[k].1 == d
  {
    if items != [] {
      var rest := DroppedIds(items[1..], verdicts[1..]);
      DropsAreListed(items[1..], verdicts[1..], d);
      assert verdicts == [verdicts[0]] + verdicts[1..];
      if verdicts[0].Dropped? {
        var all := DroppedIds(items, verdicts);
        assert all[0].1 == verdicts[0].cause;
        assert forall k :: 0 <= k < |rest| ==> all[k + 1] == rest[k];
        if d in Reasons(verdicts) && d != verdicts[0].cause {
          var k :| 0 <= k < |rest| && rest[k].1 == d;
          assert all[k + 1].1 == d;
        }
      } else {
        assert DroppedIds(items, verdicts) == rest;
      }
    }
  }

  lemma {:induction false} KeptAreListed(items: seq<Item>, verdicts: seq<Verdict>, i: nat)
    requires |items| == |verdicts| && i < |items| && verdicts[i].Kept?
    ensures items[i].id in KeptIds(items, verdicts)
  {
    if i > 0 {
      KeptAreListed(items[1..], verdicts[1..], i - 1);
    }
  }

  lemma {:induction false} SameIds(a: seq<Item>, b: seq<Item>)
    requires multiset(a) == multiset(b)
    ensures multiset(Ids(a)) == multiset(Ids(b))
  {
    if a == [] {
      assert |b| == |multiset(b)| == 0;
    } else {
      assert a[0] in multiset(b);
      var i :| 0 <= i < |b| && b[i] == a[0];
      var less := b[..i] + b[i + 1..];
      assert a == [a[0]] + a[1..];
      TotalWithout(b, i, Objects);
      assert multiset{a[0]} + multiset(a[1..]) == multiset(a);
      Cancel(a[0], multiset(a[1..]), multiset(less));
      SameIds(a[1..], less);
      IdsWithout(b, i);
    }
  }

  lemma {:induction false} IdsAppend(a: seq<Item>, b: seq<Item>)
    ensures Ids(a + b) == Ids(a) + Ids(b)
  {
    if a == [] {
      assert a + b == b;
    } else {
      assert (a + b)[1..] == a[1..] + b;
      IdsAppend(a[1..], b);
    }
  }

  lemma {:induction false} IdsWithout(b: seq<Item>, i: nat)
    requires i < |b|
    ensures multiset(Ids(b)) == multiset{b[i].id} + multiset(Ids(b[..i] + b[i + 1..]))
  {
    assert b == b[..i] + ([b[i]] + b[i + 1..]);
    IdsAppend(b[..i], [b[i]] + b[i + 1..]);
    IdsAppend(b[..i], b[i + 1..]);
    assert Ids([b[i]] + b[i + 1..]) == [b[i].id] + Ids(b[i + 1..]);
  }

  /** The verdicts a successful fit reached. */
  function Reached(items: seq<Item>, limits: Limits, clock: seq<nat>): seq<Verdict>
    requires |clock| == |items| + 1 && Fitting(items, limits, clock).Ok?
  {
    Verdicts(Arranged(items), clock, limits, Tally(NOTHING, map[])).value
  }

  lemma {:induction false} RequiredAreHandedBack(items: seq<Item>, limits: Limits, clock: seq<nat>, i: nat)
    requires |clock| == |items| + 1 && Fitting(items, limits, clock).Ok? && i < |items| && items[i].required
    ensures items[i].id in KeptIds(Arranged(items), Reached(items, limits, clock))
  {
    var ordered := Arranged(items);
    KeepsRequiredWithin(ordered, clock, limits, Tally(NOTHING, map[]));
    assert items[i] in multiset(ordered);
    var k :| 0 <= k < |ordered| && ordered[k] == items[i];
    KeptAreListed(ordered, Reached(items, limits, clock), k);
  }

  /**
   What a successful fit hands back: every identifier once, kept or dropped; every required item kept; and
   in each limited dimension a figure that is the exact total of what was kept, clamped, within the limit
   asked for, and marked binding exactly when something was dropped for it.
   */
  lemma {:induction false} FittedMeans(items: seq<Item>, limits: Limits, clock: seq<nat>, d: Dimension)
    requires |clock| == |items| + 1 && Fitting(items, limits, clock).Ok?
    ensures var f := Fitting(items, limits, clock).value;
            && multiset(f.kept) + multiset(DroppedOnly(f.dropped)) == multiset(Ids(items))
            && (forall i :: 0 <= i < |items| && items[i].required ==> items[i].id in f.kept)
    ensures var f := Fitting(items, limits, clock).value;
            && (d in f.spend <==> !d.Depth?)
            && (d in f.spend ==> (f.spend[d].binding <==> NamedBy(f, d)))
            && (!d.Depth? && !d.Time? ==>
                  && f.spend[d].requested == LimitOn(limits, d)
                  && f.spend[d].estimated == Clamp(Total(KeptItems(Arranged(items), Reached(items, limits, clock)), d))
                  && (f.spend[d].requested.Some? ==> f.spend[d].estimated <= f.spend[d].requested.value))
  {
    FittedSplits(items, limits, clock);
    FittedSpends(items, limits, clock, d);
  }

  lemma {:induction false} FittedSplits(items: seq<Item>, limits: Limits, clock: seq<nat>)
    requires |clock| == |items| + 1 && Fitting(items, limits, clock).Ok?
    ensures var f := Fitting(items, limits, clock).value;
            && multiset(f.kept) + multiset(DroppedOnly(f.dropped)) == multiset(Ids(items))
            && (forall i :: 0 <= i < |items| && items[i].required ==> items[i].id in f.kept)
  {
    var ordered, v := Arranged(items), Reached(items, limits, clock);
    NothingLostOrInvented(ordered, v);
    SameIds(ordered, items);
    forall i | 0 <= i < |items| && items[i].required ensures items[i].id in KeptIds(ordered, v) {
      RequiredAreHandedBack(items, limits, clock, i);
    }
  }

  lemma {:induction false} FittedSpends(items: seq<Item>, limits: Limits, clock: seq<nat>, d: Dimension)
    requires |clock| == |items| + 1 && Fitting(items, limits, clock).Ok?
    ensures var f := Fitting(items, limits, clock).value;
            && (d in f.spend <==> !d.Depth?)
            && (d in f.spend ==> (f.spend[d].binding <==> NamedBy(f, d)))
            && (!d.Depth? && !d.Time? ==>
                  && f.spend[d].requested == LimitOn(limits, d)
                  && f.spend[d].estimated == Clamp(Total(KeptItems(Arranged(items), Reached(items, limits, clock)), d))
                  && (f.spend[d].requested.Some? ==> f.spend[d].estimated <= f.spend[d].requested.value))
  {
    var ordered, v := Arranged(items), Reached(items, limits, clock);
    FitStaysWithin(ordered, clock, limits, d);
    DropsAreListed(ordered, v, d);
    AccountsRead(limits, After(NOTHING, ordered, v), Reasons(v), clock[|items|], d);
  }

  lemma {:induction false} AccountsRead(limits: Limits, used: Usage, dims: set<Dimension>, elapsed: nat, d: Dimension)
    ensures var spend := Accounts(limits, used, dims, elapsed);
            && (d in spend <==> !d.Depth?)
            && (d in spend ==> (spend[d].binding <==> d in dims))
            && (!d.Depth? && !d.Time? ==>
                  spend[d].requested == LimitOn(limits, d) && spend[d].estimated == UsedOf(used, d))
  {
  }
}
