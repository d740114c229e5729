/**
 That fitting keeps the ranking it is handed, and what its failures say. Everything here is in places of the
 list a caller ranked, so it says nothing of how the items are arranged in between.
 */
module Ranking {
  import opened Machine
  import opened Budget
  import opened Places

  /** Considered earlier: required before optional, and otherwise in the order ranked. */
  predicate Precedes(items: seq<Item>, i: nat, j: nat)
    requires i < |items| && j < |items|
  {
    if items[i].required == items[j].required then i < j else items[i].required
  }

  /** Places of a list, each considered before the next. */
  ghost predicate Ranked(items: seq<Item>, at: seq<nat>) {
    && (forall k :: 0 <= k < |at| ==> at[k] < |items|)
    && (forall a, b :: 0 <= a < b < |at| ==> Precedes(items, at[a], at[b]))
  }

  // ----- the arrangement is stable -----

  function Required(items: seq<Item>): (r: seq<bool>)
    ensures |r| == |items| && forall i :: 0 <= i < |items| ==> r[i] == items[i].required
  {
    seq(|items|, i requires 0 <= i < |items| => items[i].required)
  }

  /** Items read at places. */
  ghost predicate ReadAt(items: seq<Item>, at: seq<nat>, read: seq<Item>) {
    |read| == |at| && forall k :: 0 <= k < |at| ==> at[k] < |items| && read[k] == items[at[k]]
  }

  lemma {:induction false} ReadOneMore(items: seq<Item>, from: nat, at: seq<nat>, read: seq<Item>)
    requires from < |items| && ReadAt(items, at, read)
    ensures ReadAt(items, [from] + at, [items[from]] + read)
  {
  }

  lemma {:induction false} ChosenAre(items: seq<Item>, required: bool, from: nat)
    requires from <= |items|
    ensures ReadAt(items, Where(Required(items), required, from), Chosen(items[from..], required))
    decreases |items| - from
  {
    if from < |items| {
      ChosenAre(items, required, from + 1);
      assert items[from..][0] == items[from] && items[from..][1..] == items[from + 1..];
      var at, read := Where(Required(items), required, from + 1), Chosen(items[from + 1..], required);
      ReadOneMore(items, from, at, read);
      assert [] + at == at && [] + read == read;
    }
  }

  /** Where the arrangement takes its items from: the required places, then the others. */
  function Order(items: seq<Item>): seq<nat> {
    Where(Required(items), true, 0) + Where(Required(items), false, 0)
  }

  lemma {:induction false} OrderIsRanked(items: seq<Item>)
    ensures Ranked(items, Order(items))
    ensures forall i :: 0 <= i < |items| ==> Lists(Order(items), i)
  {
    var first, rest := Where(Required(items), true, 0), Where(Required(items), false, 0);
    WhereSelects(Required(items), true, 0);
    WhereSelects(Required(items), false, 0);
    RankedTogether(items, first, rest);
    forall i | 0 <= i < |items| ensures Lists(Order(items), i) {
      assert Lists(first, i) || Lists(rest, i);
      ListedTogether(first, rest, i);
    }
  }

  lemma {:induction false} RankedTogether(items: seq<Item>, first: seq<nat>, rest: seq<nat>)
    requires Selects(Required(items), true, 0, first) && Selects(Required(items), false, 0, rest)
    ensures Ranked(items, first + rest)
  {
    var all := first + rest;
    assert forall k :: 0 <= k < |all| ==> all[k] == if k < |first| then first[k] else rest[k - |first|];
  }

  /** Every item is considered once, the required ones first and each kind in the order ranked. */
  lemma {:induction false} ArrangedIsStable(items: seq<Item>) returns (at: seq<nat>)
    ensures |at| == |items| && Ranked(items, at)
    ensures forall k :: 0 <= k < |at| ==> Arranged(items)[k] == items[at[k]]
    ensures forall i :: 0 <= i < |items| ==> Lists(at, i)
  {
    at := Order(items);
    OrderIsRanked(items);
    ChosenAre(items, true, 0);
    ChosenAre(items, false, 0);
    assert items[0..] == items;
    assert |Arranged(items)| == |items|;
  }

  // ----- what is handed back is in that order -----

  function Kept(verdicts: seq<Verdict>): (r: seq<bool>)
    ensures |r| == |verdicts| && forall i :: 0 <= i < |verdicts| ==> r[i] == verdicts[i].Kept?
  {
    seq(|verdicts|, i requires 0 <= i < |verdicts| => verdicts[i].Kept?)
  }

  /** Identifiers read at places. */
  ghost predicate IdsAt(items: seq<Item>, at: seq<nat>, ids: seq<string>) {
    |ids| == |at| && forall k :: 0 <= k < |at| ==> at[k] < |items| && ids[k] == items[at[k]].id
  }

  /** Identifiers and causes read at places. */
  ghost predicate CausesAt(items: seq<Item>, verdicts: seq<Verdict>, at: seq<nat>, dropped: seq<(string, Dimension)>) {
    |dropped| == |at| && forall k :: 0 <= k < |at| ==>
      at[k] < |items| && at[k] < |verdicts| && verdicts[at[k]].Dropped?
      && dropped[k] == (items[at[k]].id, verdicts[at[k]].cause)
  }

  lemma {:induction false} IdsOneMore(items: seq<Item>, from: nat, at: seq<nat>, ids: seq<string>)
    requires from < |items| && IdsAt(items, at, ids)
    ensures IdsAt(items, [from] + at, [items[from].id] + ids)
  {
  }

  lemma {:induction false} CausesOneMore(items: seq<Item>, verdicts: seq<Verdict>, from: nat, at: seq<nat>,
                                         dropped: seq<(string, Dimension)>)
    requires from < |items| == |verdicts| && verdicts[from].Dropped? && CausesAt(items, verdicts, at, dropped)
    ensures CausesAt(items, verdicts, [from] + at, [(items[from].id, verdicts[from].cause)] + dropped)
  {
  }

  lemma {:induction false} KeptAre(items: seq<Item>, verdicts: seq<Verdict>, from: nat)
    requires |items| == |verdicts| && from <= |items|
    ensures IdsAt(items, Where(Kept(verdicts), true, from), KeptIds(items[from..], verdicts[from..]))
    decreases |items| - from
  {
    if from < |items| {
      KeptAre(items, verdicts, from + 1);
      assert items[from..][1..] == items[from + 1..] && verdicts[from..][1..] == verdicts[from + 1..];
      var at, ids := Where(Kept(verdicts), true, from + 1), KeptIds(items[from + 1..], verdicts[from + 1..]);
      IdsOneMore(items, from, at, ids);
      assert [] + at == at && [] + ids == ids;
    }
  }

  lemma {:induction false} DroppedAre(items: seq<Item>, verdicts: seq<Verdict>, from: nat)
    requires |items| == |verdicts| && from <= |items|
    ensures CausesAt(items, verdicts, Where(Kept(verdicts), false, from), DroppedIds(items[from..], verdicts[from..]))
    decreases |items| - from
  {
    if from < |items| {
      DroppedAre(items, verdicts, from + 1);
      assert items[from..][1..] == items[from + 1..] && verdicts[from..][1..] == verdicts[from + 1..];
      var at, rest := Where(Kept(verdicts), false, from + 1), DroppedIds(items[from + 1..], verdicts[from + 1..]);
      if verdicts[from].Dropped? {
        CausesOneMore(items, verdicts, from, at, rest);
      }
      assert [] + at == at && [] + rest == rest;
    }
  }

  /** Some places of an arrangement, as places of the list that was ranked. */
  function Through(order: seq<nat>, at: seq<nat>): (r: seq<nat>)
    requires forall k :: 0 <= k < |at| ==> at[k] < |order|
    ensures |r| == |at| && forall k :: 0 <= k < |at| ==> r[k] == order[at[k]]
  {
    seq(|at|, k requires 0 <= k < |at| => order[at[k]])
  }

  /** A place of the list is listed exactly where it was selected. */
  lemma {:induction false} ThroughLists(items: seq<Item>, order: seq<nat>, flags: seq<bool>, want: bool, at: seq<nat>,
                                        a: nat)
    requires Ranked(items, order) && |order| == |flags| && Selects(flags, want, 0, at) && a < |order|
    ensures Lists(Through(order, at), order[a]) <==> flags[a] == want
  {
    var r := Through(order, at);
    if flags[a] == want {
      var k :| 0 <= k < |at| && at[k] == a;
      assert r[k] == order[a];
    } else {
      forall k | 0 <= k < |r| ensures r[k] != order[a] {
        var b := at[k];
        assert b < a ==> Precedes(items, order[b], order[a]);
        assert a < b ==> Precedes(items, order[a], order[b]);
      }
    }
  }

  /** Places selected in an arrangement are ranked in the list. */
  lemma {:induction false} ThroughRanked(items: seq<Item>, order: seq<nat>, flags: seq<bool>, want: bool, at: seq<nat>)
    requires Ranked(items, order) && |order| == |flags| && Selects(flags, want, 0, at)
    ensures Ranked(items, Through(order, at))
  {
    var r := Through(order, at);
    forall a, b | 0 <= a < b < |r| ensures Precedes(items, r[a], r[b]) {
      assert at[a] < at[b];
    }
  }

  /** What a successful fit kept and dropped, as places of the list it was handed. */
  ghost predicate Splits(items: seq<Item>, f: Fitted, keptAt: seq<nat>, droppedAt: seq<nat>) {
    && Ranked(items, keptAt) && IdsAt(items, keptAt, f.kept)
    && Ranked(items, droppedAt) && |droppedAt| == |f.dropped|
    && (forall k :: 0 <= k < |droppedAt| ==> f.dropped[k].0 == items[droppedAt[k]].id)
    && (forall i :: 0 <= i < |items| ==> (Lists(keptAt, i) <==> !Lists(droppedAt, i)))
    && (forall i :: 0 <= i < |items| && items[i].required ==> Lists(keptAt, i))
  }

  /** Two optional items of one section. */
  predicate SameShelf(items: seq<Item>, i: nat, j: nat)
    requires i < |items| && j < |items|
  {
    !items[i].required && !items[j].required && items[i].section == items[j].section
  }

  /**
   What a successful fit hands back is in the order it was ranked: kept and dropped identifiers each come from
   places of the list, required ones first and otherwise in rank order; every place is in exactly one of the two,
   the required ones among the kept. And under a nondecreasing clock nothing optional is kept after something
   optional ranked before it in its section was dropped.
   */
  lemma {:induction false} FittedInOrder(items: seq<Item>, limits: Limits, clock: seq<nat>)
    returns (keptAt: seq<nat>, droppedAt: seq<nat>)
    requires |clock| == |items| + 1 && Fitting(items, limits, clock).Ok?
    ensures Splits(items, Fitting(items, limits, clock).value, keptAt, droppedAt)
    ensures Nondecreasing(clock) ==>
              forall i, j :: 0 <= i < j < |items| && SameShelf(items, i, j) && Lists(droppedAt, i) ==>
                Lists(droppedAt, j)
  {
    var ordered, v := Arranged(items), Reached(items, limits, clock);
    var order := ArrangedIsStable(items);
    var kept, dropped := Where(Kept(v), true, 0), Where(Kept(v), false, 0);
    WhereSelects(Kept(v), true, 0);
    WhereSelects(Kept(v), false, 0);
    keptAt, droppedAt := Through(order, kept), Through(order, dropped);
    Splitting(items, limits, clock, order);
    if Nondecreasing(clock) {
      forall i, j | 0 <= i < j < |items| && SameShelf(items, i, j) && Lists(droppedAt, i) ensures Lists(droppedAt, j) {
        DropsBehind(items, limits, clock, order, i, j);
      }
    }
  }

  lemma {:induction false} ReadInArrangement(items: seq<Item>, limits: Limits, clock: seq<nat>)
    requires |clock| == |items| + 1 && Fitting(items, limits, clock).Ok?
    ensures var ordered, v := Arranged(items), Reached(items, limits, clock);
            var f := Fitting(items, limits, clock).value;
            && IdsAt(ordered, Where(Kept(v), true, 0), f.kept)
            && CausesAt(ordered, v, Where(Kept(v), false, 0), f.dropped)
  {
    var ordered, v := Arranged(items), Reached(items, limits, clock);
    KeptAre(ordered, v, 0);
    DroppedAre(ordered, v, 0);
    assert ordered[0..] == ordered && v[0..] == v;
  }

  lemma {:induction false} RequiredAreKept(items: seq<Item>, limits: Limits, clock: seq<nat>)
    requires |clock| == |items| + 1 && Fitting(items, limits, clock).Ok?
    ensures forall k :: 0 <= k < |items| && Arranged(items)[k].required ==> Kept(Reached(items, limits, clock))[k]
  {
    KeepsRequiredWithin(Arranged(items), clock, limits, Tally(NOTHING, map[]));
  }

  lemma {:induction false} Splitting(items: seq<Item>, limits: Limits, clock: seq<nat>, order: seq<nat>)
    requires |clock| == |items| + 1 && Fitting(items, limits, clock).Ok?
    requires |order| == |items| && Ranked(items, order) && forall i :: 0 <= i < |items| ==> Lists(order, i)
    requires forall k :: 0 <= k < |order| ==> Arranged(items)[k] == items[order[k]]
    ensures var v := Reached(items, limits, clock);
            var kept, dropped := Where(Kept(v), true, 0), Where(Kept(v), false, 0);
            && Selects(Kept(v), true, 0, kept) && Selects(Kept(v), false, 0, dropped)
            && Splits(items, Fitting(items, limits, clock).value, Through(order, kept), Through(order, dropped))
  {
    var ordered, v := Arranged(items), Reached(items, limits, clock);
    var kept, dropped := Where(Kept(v), true, 0), Where(Kept(v), false, 0);
    WhereSelects(Kept(v), true, 0);
    WhereSelects(Kept(v), false, 0);
    ThroughRanked(items, order, Kept(v), true, kept);
    ThroughRanked(items, order, Kept(v), false, dropped);
    ReadInArrangement(items, limits, clock);
    RequiredAreKept(items, limits, clock);
    EachOnce(items, order, Kept(v), kept, dropped);
  }

  lemma {:induction false} EachOnce(items: seq<Item>, order: seq<nat>, flags: seq<bool>, yes: seq<nat>, no: seq<nat>)
    requires Ranked(items, order) && |order| == |flags| && forall i :: 0 <= i < |items| ==> Lists(order, i)
    requires Selects(flags, true, 0, yes) && Selects(flags, false, 0, no)
    requires forall k :: 0 <= k < |order| && items[order[k]].required ==> flags[k]
    ensures forall i :: 0 <= i < |items| ==> (Lists(Through(order, yes), i) <==> !Lists(Through(order, no), i))
    ensures forall i :: 0 <= i < |items| && items[i].required ==> Lists(Through(order, yes), i)
  {
    forall i | 0 <= i < |items|
      ensures Lists(Through(order, yes), i) <==> !Lists(Through(order, no), i)
      ensures items[i].required ==> Lists(Through(order, yes), i)
    {
      assert Lists(order, i);
      var a :| 0 <= a < |order| && order[a] == i;
      OneOrTheOther(items, order, flags, yes, no, a);
    }
  }

  lemma {:induction false} OneOrTheOther(items: seq<Item>, order: seq<nat>, flags: seq<bool>, yes: seq<nat>,
                                         no: seq<nat>, a: nat)
    requires Ranked(items, order) && |order| == |flags| && a < |order|
    requires Selects(flags, true, 0, yes) && Selects(flags, false, 0, no)
    ensures Lists(Through(order, yes), order[a]) <==> !Lists(Through(order, no), order[a])
    ensures flags[a] ==> Lists(Through(order, yes), order[a])
  {
    ThroughLists(items, order, flags, true, yes, a);
    ThroughLists(items, order, flags, false, no, a);
  }

  lemma {:induction false} DropsBehind(items: seq<Item>, limits: Limits, clock: seq<nat>, order: seq<nat>, i: nat,
                                       j: nat)
    requires |clock| == |items| + 1 && Fitting(items, limits, clock).Ok? && Nondecreasing(clock)
    requires |order| == |items| && Ranked(items, order) && Lists(order, i) && Lists(order, j)
    requires forall k :: 0 <= k < |order| ==> Arranged(items)[k] == items[order[k]]
    requires i < j < |items| && SameShelf(items, i, j)
    ensures var dropped := Where(Kept(Reached(items, limits, clock)), false, 0);
            && Selects(Kept(Reached(items, limits, clock)), false, 0, dropped)
            && (Lists(Through(order, dropped), i) ==> Lists(Through(order, dropped), j))
  {
    var ordered, v := Arranged(items), Reached(items, limits, clock);
    var dropped := Where(Kept(v), false, 0);
    WhereSelects(Kept(v), false, 0);
    var a :| 0 <= a < |order| && order[a] == i;
    var b :| 0 <= b < |order| && order[b] == j;
    ThroughLists(items, order, Kept(v), false, dropped, a);
    ThroughLists(items, order, Kept(v), false, dropped, b);
    ComesFirst(items, order, a, b);
    DropsLater(items, limits, clock, a, b);
  }

  lemma {:induction false} ComesFirst(items: seq<Item>, order: seq<nat>, a: nat, b: nat)
    requires Ranked(items, order) && a < |order| && b < |order| && order[a] < order[b]
    requires items[order[a]].required == items[order[b]].required
    ensures a < b
  {
  }

  lemma {:induction false} DropsLater(items: seq<Item>, limits: Limits, clock: seq<nat>, a: nat, b: nat)
    requires |clock| == |items| + 1 && Fitting(items, limits, clock).Ok? && Nondecreasing(clock) && a < b < |items|
    requires var ordered := Arranged(items); !ordered[b].required && ordered[a].section == ordered[b].section
    ensures var v := Reached(items, limits, clock); v[a].Dropped? ==> v[b].Dropped?
  {
    if Reached(items, limits, clock)[a].Dropped? {
      NeverSkipsAhead(Arranged(items), clock, limits, Tally(NOTHING, map[]), a, b);
    }
  }

  // ----- what a failure says -----

  /** The first required item that stops a fit, considered after others that fitted in time. */
  ghost predicate Stops(ordered: seq<Item>, clock: seq<nat>, limits: Limits, used: Usage, k: nat, f: Failure)
    requires k < |ordered| <= |clock|
  {
    && (forall i :: 0 <= i <= k ==> ordered[i].required)
    && (forall i :: 0 <= i < k ==> !Late(limits, clock[i]))
    && (forall d :: !Past(LimitOn(limits, d), SatAdd(UsedOf(used, d), Total(ordered[..k], d))))
    && match f
       case DeadlineBeforeRequired(ms) => Late(limits, clock[k]) && limits.timeMs == Some(ms)
       case RequiredDoesNotFit(id, d, needed, available) =>
         var sofar := SatAdd(UsedOf(used, d), Total(ordered[..k], d));
         && !Late(limits, clock[k]) && id == ordered[k].id && needed == Need(ordered[k], d) && needed > available
         && LimitOn(limits, d).Some? && available == LimitOn(limits, d).value - sofar
         && Past(LimitOn(limits, d), SatAdd(sofar, needed))
  }

  lemma {:induction false} StopsLater(ordered: seq<Item>, clock: seq<nat>, limits: Limits, used: Usage, k: nat,
                                      f: Failure)
    requires ordered != [] && k < |ordered| - 1 && |ordered| <= |clock| && Within(limits, used)
    requires ordered[0].required && !Late(limits, clock[0])
    requires Stops(ordered[1..], clock[1..], limits, Plus(used, Cost(ordered[0])), k, f)
    ensures Stops(ordered, clock, limits, used, k + 1, f)
  {
    assert ordered[..k + 1][1..] == ordered[1..][..k];
    forall d
      ensures SatAdd(UsedOf(used, d), Total(ordered[..k + 1], d))
           == SatAdd(UsedOf(Plus(used, Cost(ordered[0])), d), Total(ordered[1..][..k], d))
    {
      PlusReads(used, ordered[0], d);
    }
    assert forall i :: 0 < i <= k + 1 ==> ordered[i] == ordered[1..][i - 1] && clock[i] == clock[1..][i - 1];
  }

  lemma {:induction false} FailsAt(ordered: seq<Item>, clock: seq<nat>, limits: Limits, used: Usage)
    returns (k: nat)
    requires |ordered| <= |clock| && Within(limits, used)
    requires forall i, j :: 0 <= i < j < |ordered| && ordered[j].required ==> ordered[i].required
    requires Verdicts(ordered, clock, limits, Tally(used, map[])).Err?
    ensures k < |ordered|
    ensures Stops(ordered, clock, limits, used, k, Verdicts(ordered, clock, limits, Tally(used, map[])).error)
  {
    var item := ordered[0];
    if !item.required {
      forall i | i in ordered ensures !i.required {
      }
      OptionalNeverFails(ordered, clock, limits, Tally(used, map[]));
    }
    ExceedsMeans(item, limits, used);
    assert ordered[..0] == [];
    if Late(limits, clock[0]) || Exceeds(item, limits, used).Some? {
      k := 0;
    } else {
      var rest := FailsAt(ordered[1..], clock[1..], limits, Plus(used, Cost(item)));
      StopsLater(ordered, clock, limits, used, rest,
                 Verdicts(ordered[1..], clock[1..], limits, Tally(Plus(used, Cost(item)), map[])).error);
      k := rest + 1;
    }
  }

  /** The items at some places. */
  function ItemsAt(items: seq<Item>, at: seq<nat>): (r: seq<Item>)
    requires forall k :: 0 <= k < |at| ==> at[k] < |items|
    ensures ReadAt(items, at, r)
  {
    seq(|at|, k requires 0 <= k < |at| => items[at[k]])
  }

  /**
   A failed fit names the first required item, in rank order, that is considered past the deadline or does not fit
   beside the required ones before it, with exactly what it needed and what they left.
   */
  lemma {:induction false} FailureMeans(items: seq<Item>, limits: Limits, clock: seq<nat>)
    returns (at: seq<nat>, k: nat)
    requires |clock| == |items| + 1 && Fitting(items, limits, clock).Err?
    ensures Ranked(items, at) && k < |at| <= |items|
    ensures forall i :: 0 <= i < |at| ==> items[at[i]].required
    ensures forall i :: 0 <= i < |items| && items[i].required ==> Lists(at, i)
    ensures Stops(ItemsAt(items, at), clock, limits, NOTHING, k, Fitting(items, limits, clock).error)
  {
    var required, optional, ordered := Chosen(items, true), Chosen(items, false), Arranged(items);
    at := RequiredPlaces(items);
    RequiredFirst(items);
    k := FailsAt(ordered, clock, limits, NOTHING);
    assert ordered[k].required;
    StopsInPart(required, optional, clock, limits, NOTHING, k, Fitting(items, limits, clock).error);
  }

  lemma {:induction false} RequiredPlaces(items: seq<Item>) returns (at: seq<nat>)
    ensures Ranked(items, at) && |at| <= |items| && ItemsAt(items, at) == Chosen(items, true)
    ensures forall i :: 0 <= i < |at| ==> items[at[i]].required
    ensures forall i :: 0 <= i < |items| && items[i].required ==> Lists(at, i)
  {
    at := Where(Required(items), true, 0);
    WhereSelects(Required(items), true, 0);
    ChosenAre(items, true, 0);
    assert items[0..] == items;
    FewRequired(items);
  }

  lemma {:induction false} FewRequired(items: seq<Item>)
    ensures |Chosen(items, true)| <= |items|
  {
    assert |Arranged(items)| == |items|;
  }

  lemma {:induction false} RequiredFirst(items: seq<Item>)
    ensures Arranged(items) == Chosen(items, true) + Chosen(items, false)
    ensures forall i :: 0 <= i < |items| ==> (Arranged(items)[i].required <==> i < |Chosen(items, true)|)
  {
    var required, optional := Chosen(items, true), Chosen(items, false);
    forall i | 0 <= i < |items| ensures Arranged(items)[i].required <==> i < |required| {
      if i < |required| {
        assert Arranged(items)[i] == required[i] && required[i] in required;
      } else {
        assert Arranged(items)[i] == optional[i - |required|] && optional[i - |required|] in optional;
      }
    }
  }

  lemma {:induction false} StopsInPart(a: seq<Item>, b: seq<Item>, clock: seq<nat>, limits: Limits, used: Usage, k: nat,
                                       f: Failure)
    requires k < |a| && |a| + |b| <= |clock| && Stops(a + b, clock, limits, used, k, f)
    ensures Stops(a, clock, limits, used, k, f)
  {
    assert (a + b)[..k] == a[..k];
    assert forall i :: 0 <= i <= k ==> (a + b)[i] == a[i];
  }

  /** The deadline in whole milliseconds, of readings taken in nanoseconds. */
  lemma {:induction false} LateMeans(limits: Limits, elapsed: nat)
    ensures Late(limits, elapsed) <==> limits.timeMs.Some? && elapsed / 1_000_000 >= limits.timeMs.value
  {
  }

  /** The time a fit reports is the last reading in whole milliseconds, against the deadline asked for. */
  lemma {:induction false} TimeIsReported(items: seq<Item>, limits: Limits, clock: seq<nat>)
    requires |clock| == |items| + 1 && Fitting(items, limits, clock).Ok?
    ensures var spend := Fitting(items, limits, clock).value.spend;
            Time in spend && spend[Time].requested == limits.timeMs
            && spend[Time].estimated == Clamp(clock[|items|] / 1_000_000)
  {
  }

  /** The order in which dimensions are checked. */
  function Turn(d: Dimension): nat {
    match d case Tokens => 0 case Bytes => 1 case Objects => 2 case Relationships => 3 case Depth => 4 case Time => 5
  }

  /** An item that overflows several dimensions is refused for the first of tokens, bytes, objects, relationships. */
  lemma {:induction false} FirstIsNamed(item: Item, limits: Limits, used: Usage, d: Dimension)
    requires Within(limits, used) && Exceeds(item, limits, used).Some?
    requires Turn(d) < Turn(Exceeds(item, limits, used).value.dimension)
    ensures !Overflows(limits, used, item, d)
  {
  }
}
