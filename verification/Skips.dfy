/**
 What a complete run leaves out, for both loops and every server that answers in stamp order, honours the
 mark it is sent and holds still. Stamps may be equal, the store may hold anything, and the server may read a
 token as it likes.
 */
module Skips {
  import opened Machine
  import opened Feed
  import Taxii
  import OpenCti

  /** Where a server begins for a mark and a token. */
  type Rule = (Option<Stamp>, Option<Token>) -> nat

  /** Stamps never go back, and nothing is held twice. */
  ghost predicate InOrder(held: seq<Entry>) {
    forall i, j :: 0 <= i < j < |held| ==> held[i].stamp <= held[j].stamp && held[i] != held[j]
  }

  /** Nothing at or before the mark is sent again: `added_after` is exclusive. */
  ghost predicate Honours(held: seq<Entry>, rule: Rule) {
    forall at, token :: Position(held, at) <= rule(at, token) <= |held|
  }

  /** Strictly before a mark. */
  predicate Before(e: Entry, at: Option<Stamp>) {
    at.Some? && e.stamp < at.value
  }

  /** Everything from the mark's own stamp on that a request begins past is stored, counting from `start`. */
  ghost predicate StoredOver(held: seq<Entry>, start: Option<Stamp>, at: Option<Stamp>, from: nat, stored: set<Entry>)
    requires from <= |held|
  {
    forall k :: 0 <= k < from && !Reached(start, held[k]) && !Before(held[k], at) ==> held[k] in stored
  }

  /** Everything before the mark's stamp is stored, counting from `start`. */
  ghost predicate StoredBefore(held: seq<Entry>, start: Option<Stamp>, at: Option<Stamp>, stored: set<Entry>) {
    forall k :: 0 <= k < |held| && !Reached(start, held[k]) && Before(held[k], at) ==> held[k] in stored
  }

  lemma {:induction false} PositionPast(held: seq<Entry>, at: Option<Stamp>, j: nat)
    requires InOrder(held) && j < |held| && Reached(at, held[j])
    ensures j < Position(held, at)
  {
    assert Position(held, at) > j;
  }

  /** What a page begins past is not on it, and is behind the mark it leaves. */
  lemma {:induction false} BegunPast(held: seq<Entry>, from: nat, entries: seq<Entry>, newest: Option<Stamp>,
                                     more: bool, j: nat)
    requires InOrder(held) && Block(held, from, entries, newest, more) && j < from
    ensures held[j] !in Contents(entries)
    ensures entries != [] ==> j < Position(held, newest)
  {
    assert forall i :: 0 <= i < |entries| ==> entries[i] == held[from + i];
    if entries != [] {
      PositionPast(held, newest, j);
    }
  }

  /** A page taken where nothing unstored was stepped over leaves nothing unstored before its own mark. */
  lemma {:induction false} NothingSteppedOver(held: seq<Entry>, start: Option<Stamp>, at: Option<Stamp>, from: nat,
                                              stored: set<Entry>, entries: seq<Entry>,
                                              newest: Option<Stamp>, more: bool)
    requires InOrder(held) && Block(held, from, entries, newest, more)
    requires StoredBefore(held, start, at, stored) && StoredOver(held, start, at, from, stored)
    ensures entries != [] ==> StoredBefore(held, start, newest, stored + Contents(entries))
    ensures !more ==> AllCovered(held, start, stored + Contents(entries))
  {
    var to := from + |entries|;
    forall k | 0 <= k < to && !Reached(start, held[k]) ensures held[k] in stored + Contents(entries) {
      if from <= k {
        assert held[k] == entries[k - from];
      }
    }
    if entries != [] {
      assert forall k :: to <= k < |held| ==> held[to - 1].stamp <= held[k].stamp;
    }
  }

  // ----- TAXII -----

  /** A refusal or a 304 may come at any time. */
  ghost predicate TaxiiTicks(held: seq<Entry>, rule: Rule, run: Taxii.Run, options: Options, now: Stamp,
                             ticks: seq<Taxii.Tick>)
    decreases |ticks|
  {
    run.Live? && ticks != [] ==>
      && (Taxii.Asks(run, options, ticks[0]) && ticks[0].answer.Got? ==>
            var page := ticks[0].answer.page;
            Block(held, rule(run.cursor.addedAfter, run.next), page.entries, page.newest, page.more))
      && TaxiiTicks(held, rule, Taxii.Advance(run, options, now, ticks[0]), options, now, ticks[1..])
  }

  /** At every loop head, what the request begins past is already stored. */
  ghost predicate TaxiiOver(held: seq<Entry>, rule: Rule, start: Option<Stamp>, run: Taxii.Run, options: Options,
                            now: Stamp, ticks: seq<Taxii.Tick>)
    requires Honours(held, rule)
    decreases |ticks|
  {
    run.Live? && ticks != [] ==>
      && StoredOver(held, start, run.cursor.addedAfter, rule(run.cursor.addedAfter, run.next), run.db.stored)
      && TaxiiOver(held, rule, start, Taxii.Advance(run, options, now, ticks[0]), options, now, ticks[1..])
  }

  /** An unstored entry a request begins past is never stored by that run. */
  lemma {:induction false} TaxiiLostForGood(held: seq<Entry>, rule: Rule, run: Taxii.Run, j: nat, options: Options,
                                            now: Stamp, ticks: seq<Taxii.Tick>)
    requires InOrder(held) && Honours(held, rule) && TaxiiTicks(held, rule, run, options, now, ticks)
    requires j < |held| && held[j] !in run.db.stored
    requires run.Live? ==> j < rule(run.cursor.addedAfter, run.next)
    ensures held[j] !in Taxii.Drive(run, options, now, ticks).db.stored
    decreases |ticks|
  {
    if run.Live? && ticks != [] {
      if Taxii.Asks(run, options, ticks[0]) && ticks[0].answer.Got? {
        var page := ticks[0].answer.page;
        BegunPast(held, rule(run.cursor.addedAfter, run.next), page.entries, page.newest, page.more, j);
      }
      TaxiiLostForGood(held, rule, Taxii.Advance(run, options, now, ticks[0]), j, options, now, ticks[1..]);
    }
  }

  /** One turn that steps over nothing unstored: it ends with everything or goes on the same way. */
  lemma {:induction false} TaxiiTurn(held: seq<Entry>, rule: Rule, start: Option<Stamp>, run: Taxii.Run,
                                     options: Options, now: Stamp, tick: Taxii.Tick)
    requires run.Live? && InOrder(held) && Honours(held, rule)
    requires StoredBefore(held, start, run.cursor.addedAfter, run.db.stored)
    requires StoredOver(held, start, run.cursor.addedAfter, rule(run.cursor.addedAfter, run.next), run.db.stored)
    requires Taxii.Asks(run, options, tick) && tick.answer.Got? ==>
               var page := tick.answer.page;
               Block(held, rule(run.cursor.addedAfter, run.next), page.entries, page.newest, page.more)
    ensures var step := Taxii.Advance(run, options, now, tick);
            && (step.Live? ==> StoredBefore(held, start, step.cursor.addedAfter, step.db.stored))
            && (Taxii.OutcomeOf(step).Finished? && step.outcome.report.IsComplete() ==>
                  step.outcome.report.notModified || AllCovered(held, start, step.db.stored))
  {
    if Taxii.Asks(run, options, tick) && tick.answer.Got? {
      var page, at := tick.answer.page, run.cursor.addedAfter;
      NothingSteppedOver(held, start, at, rule(at, run.next), run.db.stored, page.entries, page.newest, page.more);
      assert run.db.stored + Contents([]) == run.db.stored;
    }
  }

  lemma {:induction false} TaxiiCoversFrom(held: seq<Entry>, rule: Rule, start: Option<Stamp>, run: Taxii.Run,
                                           options: Options, now: Stamp, ticks: seq<Taxii.Tick>)
    requires run.Live? && InOrder(held) && Honours(held, rule) && TaxiiTicks(held, rule, run, options, now, ticks)
    requires StoredBefore(held, start, run.cursor.addedAfter, run.db.stored)
    requires var end := Taxii.Drive(run, options, now, ticks);
             Taxii.OutcomeOf(end).Finished? && end.outcome.report.IsComplete() && !end.outcome.report.notModified
    ensures AllCovered(held, start, Taxii.Drive(run, options, now, ticks).db.stored) <==>
              TaxiiOver(held, rule, start, run, options, now, ticks)
    decreases |ticks|
  {
    var at, from := run.cursor.addedAfter, rule(run.cursor.addedAfter, run.next);
    if StoredOver(held, start, at, from, run.db.stored) {
      var step := Taxii.Advance(run, options, now, ticks[0]);
      TaxiiTurn(held, rule, start, run, options, now, ticks[0]);
      if step.Live? {
        TaxiiCoversFrom(held, rule, start, step, options, now, ticks[1..]);
      }
    } else {
      var j :| 0 <= j < from && !Reached(start, held[j]) && !Before(held[j], at) && held[j] !in run.db.stored;
      TaxiiLostForGood(held, rule, run, j, options, now, ticks);
    }
  }

  /**
   From any database, a complete run that was not answered with a 304 leaves everything past the mark it
   started from stored if and only if everything each of its requests began past was stored by then.
   */
  lemma {:induction false} TaxiiCoversExactly(held: seq<Entry>, rule: Rule, db: Db, options: Options, now: Stamp,
                                              ticks: seq<Taxii.Tick>)
    requires InOrder(held) && Honours(held, rule)
    requires var begin := Taxii.Begin(db, options, now);
             var end := Taxii.Drive(begin, options, now, ticks);
             && TaxiiTicks(held, rule, begin, options, now, ticks)
             && Taxii.OutcomeOf(end).Finished? && end.outcome.report.IsComplete() && !end.outcome.report.notModified
    ensures var begin := Taxii.Begin(db, options, now);
            var start := begin.cursor.addedAfter;
            AllCovered(held, start, Taxii.Drive(begin, options, now, ticks).db.stored) <==>
              TaxiiOver(held, rule, start, begin, options, now, ticks)
  {
    var begin := Taxii.Begin(db, options, now);
    TaxiiCoversFrom(held, rule, begin.cursor.addedAfter, begin, options, now, ticks);
  }

  // ----- OpenCTI -----

  /** As for TAXII; an object the server cannot render is one of `broken`. */
  ghost predicate OpenCtiTicks(held: seq<Entry>, broken: set<Entry>, rule: Rule, run: OpenCti.Run, options: Options,
                               now: Stamp, ticks: seq<OpenCti.Tick>)
    decreases |ticks|
  {
    run.Live? && ticks != [] ==>
      && (OpenCti.Asks(run, options, ticks[0]) && ticks[0].answer.Got? ==>
            var page := ticks[0].answer.page;
            && page.unrenderable <= broken
            && Block(held, rule(run.cursor.addedAfter, run.after), page.entries, page.newest, page.more))
      && OpenCtiTicks(held, broken, rule, OpenCti.Advance(run, options, now, ticks[0]), options, now, ticks[1..])
  }

  /** At every loop head, what the request begins past is already stored, or cannot be rendered. */
  ghost predicate OpenCtiOver(held: seq<Entry>, broken: set<Entry>, rule: Rule, start: Option<Stamp>, run: OpenCti.Run,
                              options: Options, now: Stamp, ticks: seq<OpenCti.Tick>)
    requires Honours(held, rule)
    decreases |ticks|
  {
    run.Live? && ticks != [] ==>
      && StoredOver(held, start, run.cursor.addedAfter, rule(run.cursor.addedAfter, run.after), run.db.stored + broken)
      && OpenCtiOver(held, broken, rule, start, OpenCti.Advance(run, options, now, ticks[0]), options, now, ticks[1..])
  }

  lemma {:induction false} OpenCtiLostForGood(held: seq<Entry>, broken: set<Entry>, rule: Rule, run: OpenCti.Run,
                                              j: nat, options: Options, now: Stamp, ticks: seq<OpenCti.Tick>)
    requires InOrder(held) && Honours(held, rule) && OpenCtiTicks(held, broken, rule, run, options, now, ticks)
    requires j < |held| && held[j] !in run.db.stored
    requires run.Live? ==> j < rule(run.cursor.addedAfter, run.after)
    ensures held[j] !in OpenCti.Drive(run, options, now, ticks).db.stored
    decreases |ticks|
  {
    if run.Live? && ticks != [] {
      if OpenCti.Asks(run, options, ticks[0]) && ticks[0].answer.Got? {
        var page := ticks[0].answer.page;
        BegunPast(held, rule(run.cursor.addedAfter, run.after), page.entries, page.newest, page.more, j);
      }
      OpenCtiLostForGood(held, broken, rule, OpenCti.Advance(run, options, now, ticks[0]), j, options, now, ticks[1..]);
    }
  }

  lemma {:induction false} OpenCtiTurn(held: seq<Entry>, broken: set<Entry>, rule: Rule, start: Option<Stamp>,
                                       run: OpenCti.Run, options: Options, now: Stamp, tick: OpenCti.Tick)
    requires run.Live? && InOrder(held) && Honours(held, rule)
    requires var at, known := run.cursor.addedAfter, run.db.stored + broken;
             StoredBefore(held, start, at, known) && StoredOver(held, start, at, rule(at, run.after), known)
    requires OpenCti.Asks(run, options, tick) && tick.answer.Got? ==>
               var page := tick.answer.page;
               && page.unrenderable <= broken
               && Block(held, rule(run.cursor.addedAfter, run.after), page.entries, page.newest, page.more)
    ensures var step := OpenCti.Advance(run, options, now, tick);
            && (step.Live? ==> StoredBefore(held, start, step.cursor.addedAfter, step.db.stored + broken))
            && (OpenCti.OutcomeOf(step).Finished? && step.outcome.report.IsComplete() ==>
                  AllCovered(held, start, step.db.stored + broken))
  {
    if OpenCti.Asks(run, options, tick) && tick.answer.Got? {
      var page, at, known := tick.answer.page, run.cursor.addedAfter, run.db.stored + broken;
      NothingSteppedOver(held, start, at, rule(at, run.after), known, page.entries, page.newest, page.more);
      assert known + Contents(page.entries) == run.db.stored + OpenCti.Rendered(page) + broken;
      assert known + Contents([]) == known;
    }
  }

  lemma {:induction false} OpenCtiCoversFrom(held: seq<Entry>, broken: set<Entry>, rule: Rule, start: Option<Stamp>,
                                             run: OpenCti.Run, options: Options, now: Stamp, ticks: seq<OpenCti.Tick>)
    requires run.Live? && InOrder(held) && Honours(held, rule)
    requires OpenCtiTicks(held, broken, rule, run, options, now, ticks)
    requires StoredBefore(held, start, run.cursor.addedAfter, run.db.stored + broken)
    requires var end := OpenCti.Drive(run, options, now, ticks);
             OpenCti.OutcomeOf(end).Finished? && end.outcome.report.IsComplete()
    ensures AllCovered(held, start, OpenCti.Drive(run, options, now, ticks).db.stored + broken) <==>
              OpenCtiOver(held, broken, rule, start, run, options, now, ticks)
    decreases |ticks|
  {
    var at, known := run.cursor.addedAfter, run.db.stored + broken;
    var from := rule(at, run.after);
    if StoredOver(held, start, at, from, known) {
      var step := OpenCti.Advance(run, options, now, ticks[0]);
      OpenCtiTurn(held, broken, rule, start, run, options, now, ticks[0]);
      if step.Live? {
        OpenCtiCoversFrom(held, broken, rule, start, step, options, now, ticks[1..]);
      }
    } else {
      var j :| 0 <= j < from && !Reached(start, held[j]) && !Before(held[j], at) && held[j] !in known;
      OpenCtiLostForGood(held, broken, rule, run, j, options, now, ticks);
    }
  }

  /** The same for OpenCTI, counting what can never be rendered as dealt with. */
  lemma {:induction false} OpenCtiCoversExactly(held: seq<Entry>, broken: set<Entry>, rule: Rule, db: Db,
                                                options: Options, now: Stamp, ticks: seq<OpenCti.Tick>)
    requires InOrder(held) && Honours(held, rule)
    requires var begin := OpenCti.Begin(db, now);
             var end := OpenCti.Drive(begin, options, now, ticks);
             && OpenCtiTicks(held, broken, rule, begin, options, now, ticks)
             && OpenCti.OutcomeOf(end).Finished? && end.outcome.report.IsComplete()
    ensures var begin := OpenCti.Begin(db, now);
            var start := begin.cursor.addedAfter;
            AllCovered(held, start, OpenCti.Drive(begin, options, now, ticks).db.stored + broken) <==>
              OpenCtiOver(held, broken, rule, start, begin, options, now, ticks)
  {
    var begin := OpenCti.Begin(db, now);
    OpenCtiCoversFrom(held, broken, rule, begin.cursor.addedAfter, begin, options, now, ticks);
  }

  // ----- equal stamps -----

  /**
   Two entries with one stamp, split across a page that says there is more and carries no token: the mark is
   exclusive, so the second is never asked for, and the run reports itself complete.
   */
  lemma {:induction false} TiesAreSkipped()
    ensures var held := [Entry(1, 10), Entry(2, 10)];
            var one := Taxii.Page([held[0]], Some(10), None, true, None);
            var two := Taxii.Page([], None, None, false, None);
            var t1 := Taxii.Tick(false, Taxii.Got(one), true, false, true, held, 7);
            var t2 := Taxii.Tick(false, Taxii.Got(two), true, false, true, held, 7);
            var rule := (at, token) => Position(held, at);
            var begin := Taxii.Begin(Db({}, None), Options(1000, false), 0);
            var end := Taxii.Drive(begin, Options(1000, false), 0, [t1, t2]);
            && InOrder(held) && Honours(held, rule) && TaxiiTicks(held, rule, begin, Options(1000, false), 0, [t1, t2])
            && Taxii.OutcomeOf(end).Finished? && end.outcome.report.IsComplete() && held[1] !in end.db.stored
  {
    var held := [Entry(1, 10), Entry(2, 10)];
    var options := Options(1000, false);
    var rule := (at, token) => Position(held, at);
    var one := Taxii.Page([held[0]], Some(10), None, true, None);
    var t1 := Taxii.Tick(false, Taxii.Got(one), true, false, true, held, 7);
    var t2 := Taxii.Tick(false, Taxii.Got(Taxii.Page([], None, None, false, None)), true, false, true, held, 7);
    var begin := Taxii.Begin(Db({}, None), options, 0);
    var head := Taxii.Advance(begin, options, 0, t1);
    var tail := Taxii.Advance(head, options, 0, t2);
    assert [t1, t2][1..] == [t2] && [t2][1..] == [];
    assert Position(held, None) == 0;
    PositionPast(held, Some(10), 1);
    assert held[0..1] == [held[0]] && held[2..2] == [];
    assert TaxiiTicks(held, rule, tail, options, 0, []) && TaxiiTicks(held, rule, head, options, 0, [t2]);
    assert Taxii.Drive(tail, options, 0, []) == tail && Taxii.Drive(head, options, 0, [t2]) == tail;
    assert held[1] !in Contents([held[0]]);
  }
}
